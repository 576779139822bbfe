/**
 * The few `java.lang` and `java.io` string behaviours the save format relies on:
 * `String.valueOf(int)`, `Integer.parseInt`, `String.valueOf(boolean)`,
 * `Boolean.parseBoolean`, `String.trim`, `String.split` with a one-character
 * pattern, and the line splitting of `BufferedReader.readLine`.
 */
module JavaStrings {
  import opened Wrappers

  /** The range of a Java `int`. */
  const MinInt: int := -0x8000_0000
  const MaxInt: int := 0x7fff_ffff

  /** A Java `int` result: `x` wrapped into the 32-bit range. */
  function Int32(x: int): (r: int)
    ensures MinInt <= r <= MaxInt
    ensures MinInt <= x <= MaxInt ==> r == x
    ensures (r - x) % 0x1_0000_0000 == 0
  {
    (x - MinInt) % 0x1_0000_0000 + MinInt
  }

  /** Java's integer `/`: the quotient is rounded toward zero. */
  function JavaDiv(a: int, b: int): (q: int)
    requires b != 0
    ensures a >= 0 && b > 0 ==> q == a / b
    ensures a < 0 && b > 0 ==> q == -((-a) / b)
  {
    var m := if b < 0 then -b else b;
    var d := if a >= 0 then a / m else -((-a) / m);
    if b < 0 then -d else d
  }

  predicate IsDigit(c: char) {
    '0' <= c <= '9'
  }

  predicate AllDigits(s: string) {
    forall k :: 0 <= k < |s| ==> IsDigit(s[k])
  }

  function DigitChar(d: nat): (c: char)
    requires d < 10
    ensures IsDigit(c) && c as int - '0' as int == d
  {
    ('0' as int + d) as char
  }

  /** The decimal digits of `n`, most significant first, without leading zeros. */
  function Digits(n: nat): (s: string)
    ensures |s| > 0 && AllDigits(s)
    decreases n
  {
    if n < 10 then [DigitChar(n)] else Digits(n / 10) + [DigitChar(n % 10)]
  }

  /** The number a non-empty run of decimal digits denotes. */
  function DigitsValue(s: string): nat
    requires AllDigits(s)
  {
    if s == [] then 0 else DigitsValue(s[..|s| - 1]) * 10 + (s[|s| - 1] as int - '0' as int)
  }

  lemma {:induction false} DigitsValueOfDigits(n: nat)
    ensures DigitsValue(Digits(n)) == n
    decreases n
  {
    if n >= 10 {
      var s := Digits(n);
      assert s[..|s| - 1] == Digits(n / 10);
      DigitsValueOfDigits(n / 10);
    }
  }

  /** Equal digit strings denote equal numbers, so `Digits` never repeats itself. */
  lemma DigitsInjective(a: nat, b: nat)
    requires Digits(a) == Digits(b)
    ensures a == b
  {
    DigitsValueOfDigits(a);
    DigitsValueOfDigits(b);
  }

  /** Two different counts after the same text give different keys. */
  lemma NumberedApart(p: string, a: nat, b: nat)
    requires a != b
    ensures p + ValueOfInt(a) != p + ValueOfInt(b)
  {
    if p + ValueOfInt(a) == p + ValueOfInt(b) {
      assert (p + Digits(a))[|p|..] == Digits(a);
      assert (p + Digits(b))[|p|..] == Digits(b);
      DigitsInjective(a, b);
    }
  }

  /** `String.valueOf(int)`: optional minus sign, then the digits of the magnitude. */
  function ValueOfInt(n: int): (s: string)
    ensures |s| > 0
    ensures n >= 0 ==> s == Digits(n)
  {
    if n < 0 then "-" + Digits(-n) else Digits(n)
  }

  /**
   * `Integer.parseInt(s)` with radix 10: an optional `-` or `+`, then at least
   * one digit, and a value that fits an `int`; everything else throws
   * `NumberFormatException`, written `None`. Only ASCII digits are modelled.
   */
  function ParseInt(s: string): (r: Option<int>)
    ensures r.Some? ==> MinInt <= r.value <= MaxInt
  {
    if |s| == 0 then None
    else
      var signed := s[0] == '-' || s[0] == '+';
      var body := if signed then s[1..] else s;
      if |body| == 0 || !AllDigits(body) then None
      else
        var v: int := if s[0] == '-' then 0 - DigitsValue(body) else DigitsValue(body);
        if MinInt <= v <= MaxInt then Some(v) else None
  }

  /** Printing an `int` and parsing the text gives the same `int` back. */
  lemma ParseValueOfInt(n: int)
    requires MinInt <= n <= MaxInt
    ensures ParseInt(ValueOfInt(n)) == Some(n)
  {
    var m := if n < 0 then -n else n;
    DigitsValueOfDigits(m);
    if n < 0 {
      assert ValueOfInt(n)[1..] == Digits(m);
    }
  }

  /** `String.valueOf(boolean)`. */
  function ValueOfBool(b: bool): string {
    if b then "true" else "false"
  }

  /** ASCII lower-casing, enough to compare with "true" ignoring case. */
  function LowerAscii(c: char): char {
    if 'A' <= c <= 'Z' then (c as int - 'A' as int + 'a' as int) as char else c
  }

  /** `Boolean.parseBoolean(s)`: true exactly for a non-null "true" in any letter case. */
  function ParseBoolean(s: Option<string>): (b: bool)
    ensures b <==> s.Some? && |s.value| == 4 && forall k :: 0 <= k < 4 ==> LowerAscii(s.value[k]) == "true"[k]
  {
    s.Some? && |s.value| == 4 && LowerAscii(s.value[0]) == 't' && LowerAscii(s.value[1]) == 'r'
    && LowerAscii(s.value[2]) == 'u' && LowerAscii(s.value[3]) == 'e'
  }

  lemma ParseValueOfBool(b: bool)
    ensures ParseBoolean(Some(ValueOfBool(b))) == b
  {
  }

  // ---------------------------------------------------------------- trim

  /** `String.trim` drops every character up to U+0020 from both ends. */
  predicate IsTrimmable(c: char) {
    c <= ' '
  }

  /** The first index from `i` on that `String.trim` keeps, or `|s|` when there is none. */
  function KeptFrom(s: string, i: nat): (j: nat)
    requires i <= |s|
    ensures i <= j <= |s|
    ensures j == |s| || !IsTrimmable(s[j])
    ensures forall k :: i <= k < j ==> IsTrimmable(s[k])
    decreases |s| - i
  {
    if i < |s| && IsTrimmable(s[i]) then KeptFrom(s, i + 1) else i
  }

  /** Where what `String.trim` keeps of `s[lo..hi]` ends, walking back from `hi` but not past `lo`. */
  function KeptTo(s: string, lo: nat, hi: nat): (j: nat)
    requires lo <= hi <= |s|
    ensures lo <= j <= hi
    ensures j == lo || !IsTrimmable(s[j - 1])
    ensures forall k :: j <= k < hi ==> IsTrimmable(s[k])
  {
    if lo < hi && IsTrimmable(s[hi - 1]) then KeptTo(s, lo, hi - 1) else hi
  }

  /** `String.trim`: the longest middle part of `s` that starts and ends with printing characters. */
  function Trim(s: string): (r: string)
    ensures |r| <= |s|
    ensures r == [] || (!IsTrimmable(r[0]) && !IsTrimmable(r[|r| - 1]))
    ensures (s == [] || (!IsTrimmable(s[0]) && !IsTrimmable(s[|s| - 1]))) ==> r == s
  {
    var lo := KeptFrom(s, 0);
    s[lo..KeptTo(s, lo, |s|)]
  }

  /** `String.trim` keeps one slice of `s` and drops only blanks on either side of it. */
  lemma TrimSpan(s: string)
    ensures var i := KeptFrom(s, 0); var r := Trim(s);
      && i + |r| <= |s|
      && r == s[i..i + |r|]
      && (forall k :: 0 <= k < i ==> IsTrimmable(s[k]))
      && (forall k :: i + |r| <= k < |s| ==> IsTrimmable(s[k]))
  {
  }

  /** `String.trim` adds no character: one that `s` lacks, its trimmed text lacks too. */
  lemma TrimKeepsOut(s: string, c: char)
    requires c !in s
    ensures c !in Trim(s)
  {
  }

  // ---------------------------------------------------------------- split

  /** Every piece of `s` between occurrences of `sep`, trailing empty pieces included. */
  function Fields(s: string, sep: char): (r: seq<string>)
    ensures |r| >= 1
    ensures forall k :: 0 <= k < |r| ==> sep !in r[k]
  {
    if s == [] then [[]]
    else
      var rest := Fields(s[1..], sep);
      if s[0] == sep then [[]] + rest else [[s[0]] + rest[0]] + rest[1..]
  }

  /** What `split` keeps of its fields: everything up to the last non-empty one. */
  function DropTrailingEmpty(r: seq<string>): (q: seq<string>)
    ensures |q| <= |r| && q == r[..|q|]
    ensures q == [] || q[|q| - 1] != []
    ensures forall k :: |q| <= k < |r| ==> r[k] == []
  {
    if |r| > 0 && r[|r| - 1] == [] then DropTrailingEmpty(r[..|r| - 1]) else r
  }

  /**
   * `s.split(sep)` for a one-character pattern: with no occurrence the whole
   * string is the only field; otherwise the fields between occurrences, with
   * trailing empty fields removed.
   */
  function Split(s: string, sep: char): (r: seq<string>)
    ensures sep !in s ==> r == [s]
    ensures forall k :: 0 <= k < |r| ==> sep !in r[k]
    ensures sep in s ==> r == [] || r[|r| - 1] != []
    ensures sep in s ==> var f := Fields(s, sep);
      |r| <= |f| && r == f[..|r|] && forall k :: |r| <= k < |f| ==> f[k] == []
  {
    if sep !in s then [s] else DropTrailingEmpty(Fields(s, sep))
  }

  lemma {:induction false} FieldsWithout(s: string, sep: char)
    requires sep !in s
    ensures Fields(s, sep) == [s]
  {
    if s != [] {
      assert s[0] != sep && sep !in s[1..];
      FieldsWithout(s[1..], sep);
      assert [s[0]] + s[1..] == s;
    }
  }

  lemma {:induction false} FieldsAround(a: string, sep: char, b: string)
    requires sep !in a
    ensures Fields(a + [sep] + b, sep) == [a] + Fields(b, sep)
  {
    if a == [] {
      assert (a + [sep] + b)[1..] == b;
    } else {
      assert (a + [sep] + b)[1..] == a[1..] + [sep] + b;
      assert (a + [sep] + b)[0] == a[0] != sep;
      FieldsAround(a[1..], sep, b);
      assert [a[0]] + a[1..] == a;
    }
  }

  /** A key, one separator and a non-empty value without separators split into exactly those two fields. */
  lemma SplitPair(k: string, sep: char, v: string)
    requires sep !in k && sep !in v && v != []
    ensures Split(k + [sep] + v, sep) == [k, v]
  {
    FieldsAround(k, sep, v);
    FieldsWithout(v, sep);
    assert sep in k + [sep] + v by { assert (k + [sep] + v)[|k|] == sep; }
  }

  /** With an empty value the only field left is the key: such a line does not split in two. */
  lemma SplitEmptyValue(k: string, sep: char)
    requires sep !in k
    ensures Split(k + [sep], sep) == (if k == [] then [] else [k])
  {
    FieldsAround(k, sep, []);
    assert k + [sep] == k + [sep] + [];
    assert sep in k + [sep] by { assert (k + [sep])[|k|] == sep; }
    assert Fields(k + [sep], sep) == [k, []];
    assert DropTrailingEmpty([k, []]) == DropTrailingEmpty([k]) by { assert [k, []][..1] == [k]; }
    if k == [] {
      assert DropTrailingEmpty([k]) == DropTrailingEmpty([]) by { assert [k][..0] == []; }
    }
  }

  /** A separator after the value leaves an empty last field, which `split` drops: the line still splits in two. */
  lemma SplitTrailingSeparator(k: string, sep: char, v: string)
    requires sep !in k && sep !in v && v != []
    ensures Split(k + [sep] + v + [sep], sep) == [k, v]
  {
    var s := k + [sep] + v + [sep];
    assert s == k + [sep] + (v + [sep] + []);
    FieldsAround(k, sep, v + [sep] + []);
    FieldsAround(v, sep, []);
    assert Fields(s, sep) == [k, v, []];
    assert sep in s by { assert s[|k|] == sep; }
    assert DropTrailingEmpty([k, v, []]) == [k, v] by { assert [k, v, []][..2] == [k, v]; }
  }

  // ---------------------------------------------------------------- readLine

  /** `BufferedReader.readLine` ends a line at '\n', at '\r', or at "\r\n". */
  predicate IsLineBreak(c: char) {
    c == '\n' || c == '\r'
  }

  function LineEnd(s: string): (i: nat)
    ensures i <= |s|
    ensures forall k :: 0 <= k < i ==> !IsLineBreak(s[k])
    ensures i < |s| ==> IsLineBreak(s[i])
  {
    if s == [] || IsLineBreak(s[0]) then 0 else 1 + LineEnd(s[1..])
  }

  /**
   * The lines successive `readLine` calls return before the one that returns
   * `null`: a final line without terminator counts, an empty remainder does not.
   */
  function ReadLines(s: string): (r: seq<string>)
    ensures forall k :: 0 <= k < |r| ==> forall c :: c in r[k] ==> !IsLineBreak(c)
    decreases |s|
  {
    if s == [] then []
    else
      var i := LineEnd(s);
      if i == |s| then [s]
      else if s[i] == '\r' && i + 1 < |s| && s[i + 1] == '\n' then [s[..i]] + ReadLines(s[i + 2..])
      else [s[..i]] + ReadLines(s[i + 1..])
  }

  /** A line written with a trailing '\n' is read back as one line. */
  lemma ReadLinesCons(line: string, rest: string)
    requires forall c :: c in line ==> !IsLineBreak(c)
    ensures ReadLines(line + "\n" + rest) == [line] + ReadLines(rest)
  {
    var s := line + "\n" + rest;
    LineEndAt(line, rest);
    assert s[..|line|] == line;
    assert s[|line| + 1..] == rest;
  }

  lemma {:induction false} LineEndAt(line: string, rest: string)
    requires forall c :: c in line ==> !IsLineBreak(c)
    ensures LineEnd(line + "\n" + rest) == |line|
  {
    if line != [] {
      assert (line + "\n" + rest)[1..] == line[1..] + "\n" + rest;
      LineEndAt(line[1..], rest);
    }
  }
}
