/**
 * The handful of .NET string operations the bot relies on, written out so that
 * their edge cases are explicit: `char.IsWhiteSpace`, `Trim`, ordinal and
 * ordinal-ignore-case comparison, `Contains`, `Replace`, the `"  +"` space
 * collapse, `int.ToString()` and `int.TryParse`.
 */
module Text {
  import opened Wrappers

  const MinInt32: int := -0x8000_0000
  const MaxInt32: int := 0x7FFF_FFFF

  // ---------------------------------------------------------------------------
  // Whitespace and trimming

  /** `char.IsWhiteSpace`: the characters with the Unicode White_Space property. */
  predicate IsWhiteSpace(c: char) {
    ('\U{0009}' <= c <= '\U{000D}') || c == ' ' || c == '\U{0085}' || c == '\U{00A0}'
    || c == '\U{1680}' || ('\U{2000}' <= c <= '\U{200A}') || c == '\U{2028}' || c == '\U{2029}'
    || c == '\U{202F}' || c == '\U{205F}' || c == '\U{3000}'
  }

  /** The white space `int.TryParse` skips around a number (NumberStyles.Integer). */
  predicate IsNumberWhite(c: char) {
    ('\U{0009}' <= c <= '\U{000D}') || c == ' '
  }

  /** Drops the leading characters that satisfy `ws`. */
  function TrimStart(s: string, ws: char -> bool): string {
    if |s| > 0 && ws(s[0]) then TrimStart(s[1..], ws) else s
  }

  /** Drops the trailing characters that satisfy `ws`. */
  function TrimEnd(s: string, ws: char -> bool): string {
    if |s| > 0 && ws(s[|s| - 1]) then TrimEnd(s[..|s| - 1], ws) else s
  }

  /** `string.Trim()`. */
  function Trim(s: string): string {
    TrimEnd(TrimStart(s, IsWhiteSpace), IsWhiteSpace)
  }

  /** TrimStart removes a prefix made only of `ws` characters, and no more. */
  lemma {:induction false} TrimStartShape(s: string, ws: char -> bool)
    ensures var r := TrimStart(s, ws);
      |r| <= |s| && r == s[|s| - |r|..] && (forall k :: 0 <= k < |s| - |r| ==> ws(s[k])) && (r == [] || !ws(r[0]))
  {
    if |s| > 0 && ws(s[0]) {
      TrimStartShape(s[1..], ws);
    }
  }

  /** TrimEnd removes a suffix made only of `ws` characters, and no more. */
  lemma {:induction false} TrimEndShape(s: string, ws: char -> bool)
    ensures var r := TrimEnd(s, ws);
      |r| <= |s| && r == s[..|r|] && (forall k :: |r| <= k < |s| ==> ws(s[k])) && (r == [] || !ws(r[|r| - 1]))
  {
    if |s| > 0 && ws(s[|s| - 1]) {
      TrimEndShape(s[..|s| - 1], ws);
    }
  }

  /**
   * Trim returns the part of `s` between its leading and trailing white
   * space: a slice of `s` that neither starts nor ends with white space, all
   * of whose dropped characters are white space.
   */
  lemma TrimShape(s: string)
    ensures var r, i := Trim(s), |s| - |TrimStart(s, IsWhiteSpace)|;
      0 <= i <= |s| - |r| && r == s[i..i + |r|]
        && (forall k :: 0 <= k < i ==> IsWhiteSpace(s[k]))
        && (forall k :: i + |r| <= k < |s| ==> IsWhiteSpace(s[k]))
    ensures Trim(s) == [] || (!IsWhiteSpace(Trim(s)[0]) && !IsWhiteSpace(Trim(s)[|Trim(s)| - 1]))
  {
    var t := TrimStart(s, IsWhiteSpace);
    TrimStartShape(s, IsWhiteSpace);
    TrimEndShape(t, IsWhiteSpace);
    var i := |s| - |t|;
    var r := Trim(s);
    assert r == s[i..i + |r|];
    assert forall k :: i + |r| <= k < |s| ==> s[k] == t[k - i];
  }

  /** Trim leaves a string alone when it neither starts nor ends with white space. */
  lemma TrimUnchanged(s: string)
    requires s == [] || (!IsWhiteSpace(s[0]) && !IsWhiteSpace(s[|s| - 1]))
    ensures Trim(s) == s
  {
  }

  /** Trimming a string with one space added at its end gives the string back. */
  lemma TrimTrailingSpace(s: string)
    requires |s| > 0 && !IsWhiteSpace(s[0]) && !IsWhiteSpace(s[|s| - 1])
    ensures Trim(s + " ") == s
  {
    var u := s + " ";
    assert TrimStart(u, IsWhiteSpace) == u;
    assert u[..|u| - 1] == s;
    assert TrimEnd(s, IsWhiteSpace) == s;
  }

  // ---------------------------------------------------------------------------
  // Comparison

  /** `StringComparison.Ordinal` and `StringComparison.OrdinalIgnoreCase`. */
  datatype Comparison = Ordinal | OrdinalIgnoreCase

  /** Upper-case mapping used by ordinal-ignore-case comparison (ASCII letters). */
  function Upper(c: char): (u: char)
    ensures 'a' <= c <= 'z' ==> u as int == c as int - 32
    ensures !('a' <= c <= 'z') ==> u == c
  {
    if 'a' <= c <= 'z' then (c as int - 32) as char else c
  }

  /** Character equality under a comparison. */
  predicate SameChar(a: char, b: char, cmp: Comparison) {
    match cmp
    case Ordinal => a == b
    case OrdinalIgnoreCase => Upper(a) == Upper(b)
  }

  /** `a.Equals(b, cmp)`, character by character. */
  predicate Equal(a: string, b: string, cmp: Comparison) {
    |a| == |b| && (a == [] || (SameChar(a[0], b[0], cmp) && Equal(a[1..], b[1..], cmp)))
  }

  /** Equality under a comparison is equal length and equal characters at every position. */
  lemma {:induction false} EqualPointwise(a: string, b: string, cmp: Comparison)
    ensures Equal(a, b, cmp) <==> |a| == |b| && forall i :: 0 <= i < |a| ==> SameChar(a[i], b[i], cmp)
  {
    if |a| == |b| && a != [] {
      EqualPointwise(a[1..], b[1..], cmp);
      assert forall i :: 0 <= i < |a| - 1 ==> a[1..][i] == a[i + 1] && b[1..][i] == b[i + 1];
    }
  }

  lemma {:induction false} EqualReflexive(a: string, cmp: Comparison)
    ensures Equal(a, a, cmp)
  {
    if a != [] {
      EqualReflexive(a[1..], cmp);
    }
  }

  /** The string upper-cased character by character, as ordinal-ignore-case compares it. */
  function Fold(s: string): (r: string)
    ensures |r| == |s| && forall i :: 0 <= i < |s| ==> r[i] == Upper(s[i])
  {
    seq(|s|, i requires 0 <= i < |s| => Upper(s[i]))
  }

  /** Ignore-case equality is equality of the folded strings. */
  lemma EqualIgnoreCaseIsFold(a: string, b: string)
    ensures Equal(a, b, OrdinalIgnoreCase) <==> Fold(a) == Fold(b)
  {
    EqualPointwise(a, b, OrdinalIgnoreCase);
    if Fold(a) == Fold(b) {
      assert |a| == |b|;
      forall i | 0 <= i < |a| ensures SameChar(a[i], b[i], OrdinalIgnoreCase) {
        assert Fold(a)[i] == Fold(b)[i];
      }
    }
  }

  /** `s` has `k` at position `i`. */
  predicate MatchAt(s: string, k: string, i: int, cmp: Comparison) {
    0 <= i && i + |k| <= |s| && Equal(s[i..i + |k|], k, cmp)
  }

  /** `s.Contains(k, cmp)`. */
  predicate Contains(s: string, k: string, cmp: Comparison) {
    exists i :: 0 <= i <= |s| - |k| && MatchAt(s, k, i, cmp)
  }

  /**
   * `s.Replace(pat, rep, cmp)`: every occurrence of `pat`, found left to right
   * without overlap, is replaced by `rep`.
   */
  function Replace(s: string, pat: string, rep: string, cmp: Comparison): (r: string)
    requires |pat| > 0
    decreases |s|
  {
    if MatchAt(s, pat, 0, cmp) then rep + Replace(s[|pat|..], pat, rep, cmp)
    else if s == [] then []
    else [s[0]] + Replace(s[1..], pat, rep, cmp)
  }

  /** How many occurrences `Replace` replaces. */
  function ReplaceCount(s: string, pat: string, cmp: Comparison): nat
    requires |pat| > 0
    decreases |s|
  {
    if MatchAt(s, pat, 0, cmp) then 1 + ReplaceCount(s[|pat|..], pat, cmp)
    else if s == [] then 0
    else ReplaceCount(s[1..], pat, cmp)
  }

  lemma MulSucc(m: nat, p: nat)
    ensures (1 + m) * p == p + m * p
  {
  }

  /** Removing `pat` shortens the string by exactly |pat| per replaced occurrence. */
  lemma {:induction false} RemoveAllLength(s: string, pat: string, cmp: Comparison)
    requires |pat| > 0
    ensures |Replace(s, pat, "", cmp)| == |s| - ReplaceCount(s, pat, cmp) * |pat|
    decreases |s|
  {
    if MatchAt(s, pat, 0, cmp) {
      var t := s[|pat|..];
      RemoveAllLength(t, pat, cmp);
      var m := ReplaceCount(t, pat, cmp);
      assert ReplaceCount(s, pat, cmp) == 1 + m;
      assert Replace(s, pat, "", cmp) == Replace(t, pat, "", cmp);
      assert |t| == |s| - |pat|;
      MulSucc(m, |pat|);
    } else if s != [] {
      var t := s[1..];
      RemoveAllLength(t, pat, cmp);
      assert ReplaceCount(s, pat, cmp) == ReplaceCount(t, pat, cmp);
      assert Replace(s, pat, "", cmp) == [s[0]] + Replace(t, pat, "", cmp);
    } else {
      assert ReplaceCount(s, pat, cmp) == 0;
      assert Replace(s, pat, "", cmp) == [];
    }
  }

  /** An occurrence at position i > 0 is an occurrence at i - 1 of the tail. */
  lemma ContainsTail(s: string, pat: string, cmp: Comparison)
    requires |s| > 0
    ensures Contains(s, pat, cmp) <==> MatchAt(s, pat, 0, cmp) || Contains(s[1..], pat, cmp)
  {
    if Contains(s, pat, cmp) && !MatchAt(s, pat, 0, cmp) {
      var i :| 0 <= i <= |s| - |pat| && MatchAt(s, pat, i, cmp);
      assert s[1..][i - 1..i - 1 + |pat|] == s[i..i + |pat|];
      assert MatchAt(s[1..], pat, i - 1, cmp);
    }
    if Contains(s[1..], pat, cmp) {
      var i :| 0 <= i <= |s[1..]| - |pat| && MatchAt(s[1..], pat, i, cmp);
      assert s[1..][i..i + |pat|] == s[i + 1..i + 1 + |pat|];
      assert MatchAt(s, pat, i + 1, cmp);
    }
  }

  /** At least one occurrence is replaced exactly when `pat` occurs at all. */
  lemma {:induction false} ReplaceCountPositive(s: string, pat: string, cmp: Comparison)
    requires |pat| > 0
    ensures Contains(s, pat, cmp) <==> ReplaceCount(s, pat, cmp) > 0
    decreases |s|
  {
    if s == [] {
      assert !MatchAt(s, pat, 0, cmp);
    } else {
      ContainsTail(s, pat, cmp);
      if !MatchAt(s, pat, 0, cmp) {
        ReplaceCountPositive(s[1..], pat, cmp);
      }
    }
  }

  /** A string in which `pat` does not occur comes back unchanged. */
  lemma {:induction false} ReplaceAbsent(s: string, pat: string, rep: string, cmp: Comparison)
    requires |pat| > 0
    requires !Contains(s, pat, cmp)
    ensures Replace(s, pat, rep, cmp) == s
    decreases |s|
  {
    if s != [] {
      ContainsTail(s, pat, cmp);
      ReplaceAbsent(s[1..], pat, rep, cmp);
    }
  }

  /** How many positions of `s` start an occurrence of `pat`, overlapping ones included. */
  function Occurrences(s: string, pat: string, cmp: Comparison): nat
    decreases |s|
  {
    if s == [] then 0 else (if MatchAt(s, pat, 0, cmp) then 1 else 0) + Occurrences(s[1..], pat, cmp)
  }

  /** The first character of `pat` does not come back later in it, so two occurrences cannot overlap. */
  predicate FirstCharUnique(pat: string, cmp: Comparison) {
    |pat| > 0 && forall k :: 0 < k < |pat| ==> !SameChar(pat[k], pat[0], cmp)
  }

  /** An occurrence of `pat` at position m of `s` is one at the start of `s[m..]`. */
  lemma MatchAtSuffix(s: string, pat: string, m: nat, cmp: Comparison)
    requires m <= |s|
    ensures MatchAt(s[m..], pat, 0, cmp) <==> MatchAt(s, pat, m, cmp)
  {
    if m + |pat| <= |s| {
      assert s[m..][0..|pat|] == s[m..m + |pat|];
    }
  }

  /** No occurrence of a non-overlapping `pat` starts inside another. */
  lemma NoMatchInside(s: string, pat: string, i: nat, cmp: Comparison)
    requires FirstCharUnique(pat, cmp) && MatchAt(s, pat, 0, cmp) && 0 < i < |pat|
    ensures !MatchAt(s, pat, i, cmp)
  {
    EqualPointwise(s[0..|pat|], pat, cmp);
    assert s[0..|pat|][i] == s[i];
    assert SameChar(s[i], pat[i], cmp) && !SameChar(pat[i], pat[0], cmp);
    if i + |pat| <= |s| {
      EqualPointwise(s[i..i + |pat|], pat, cmp);
      assert s[i..i + |pat|][0] == s[i] && !SameChar(s[i], pat[0], cmp);
    }
  }

  /** After an occurrence of a non-overlapping `pat` at 0, the next can start no earlier than |pat|. */
  lemma {:induction false} OccurrencesSkip(s: string, pat: string, n: nat, cmp: Comparison)
    requires FirstCharUnique(pat, cmp) && MatchAt(s, pat, 0, cmp) && 1 <= n <= |pat|
    ensures Occurrences(s[1..], pat, cmp) == Occurrences(s[n..], pat, cmp)
  {
    if n > 1 {
      OccurrencesSkip(s, pat, n - 1, cmp);
      var u := s[n - 1..];
      MatchAtSuffix(s, pat, n - 1, cmp);
      NoMatchInside(s, pat, n - 1, cmp);
      assert u[1..] == s[n..];
    }
  }

  /**
   * For a `pat` that cannot overlap itself, `Replace` replaces every
   * occurrence: as many as there are positions where `pat` starts.
   */
  lemma {:induction false} ReplaceCountIsOccurrences(s: string, pat: string, cmp: Comparison)
    requires FirstCharUnique(pat, cmp)
    ensures ReplaceCount(s, pat, cmp) == Occurrences(s, pat, cmp)
    decreases |s|
  {
    if MatchAt(s, pat, 0, cmp) {
      ReplaceCountIsOccurrences(s[|pat|..], pat, cmp);
      OccurrencesSkip(s, pat, |pat|, cmp);
    } else if s != [] {
      ReplaceCountIsOccurrences(s[1..], pat, cmp);
    }
  }

  // ---------------------------------------------------------------------------
  // Spaces

  /** No two spaces in a row. */
  predicate NoDoubleSpace(s: string) {
    forall i :: 0 <= i < |s| - 1 ==> !(s[i] == ' ' && s[i + 1] == ' ')
  }

  /**
   * `Regex.Replace(s, "  +", " ")`: every run of two or more spaces becomes a
   * single space; written as "drop a space that another space follows".
   */
  function CollapseSpaces(s: string): (r: string)
    ensures NoDoubleSpace(r)
    ensures |r| <= |s|
    ensures s != [] ==> r != [] && r[0] == s[0] && r[|r| - 1] == s[|s| - 1]
  {
    if |s| >= 2 && s[0] == ' ' && s[1] == ' ' then CollapseSpaces(s[1..])
    else if s == [] then []
    else [s[0]] + CollapseSpaces(s[1..])
  }

  /** A string without double spaces is left as it is by the collapse. */
  lemma {:induction false} CollapseIdempotent(s: string)
    requires NoDoubleSpace(s)
    ensures CollapseSpaces(s) == s
  {
    if s != [] {
      CollapseIdempotent(s[1..]);
    }
  }

  // ---------------------------------------------------------------------------
  // Removing characters and splitting

  /** `s` with every `c` taken out. */
  function Without(s: string, c: char): string {
    if s == [] then [] else (if s[0] == c then [] else [s[0]]) + Without(s[1..], c)
  }

  /** What is left is every character of `s` but `c`, and nothing else. */
  lemma {:induction false} WithoutMembers(s: string, c: char)
    ensures |Without(s, c)| <= |s|
    ensures forall x :: x in Without(s, c) <==> x in s && x != c
  {
    if s != [] {
      WithoutMembers(s[1..], c);
      assert forall x :: x in s <==> x == s[0] || x in s[1..];
    }
  }

  /** `s.Replace("c", "")` takes out exactly the characters `c`. */
  lemma {:induction false} ReplaceCharIsWithout(s: string, c: char)
    ensures Replace(s, [c], "", Ordinal) == Without(s, c)
    decreases |s|
  {
    if s != [] {
      ReplaceCharIsWithout(s[1..], c);
      assert MatchAt(s, [c], 0, Ordinal) <==> s[0] == c by {
        assert s[0..1] == [s[0]];
        EqualPointwise([s[0]], [c], Ordinal);
      }
    }
  }

  /** Taking out a character that does not occur changes nothing. */
  lemma {:induction false} WithoutAbsent(s: string, c: char)
    requires c !in s
    ensures Without(s, c) == s
  {
    if s != [] {
      assert c !in s[1..];
      WithoutAbsent(s[1..], c);
      assert [s[0]] + s[1..] == s;
    }
  }

  /** Taking out a character works piece by piece. */
  lemma {:induction false} WithoutAppend(a: string, b: string, c: char)
    ensures Without(a + b, c) == Without(a, c) + Without(b, c)
  {
    if a != [] {
      assert (a + b)[1..] == a[1..] + b;
      WithoutAppend(a[1..], b, c);
    } else {
      assert a + b == b;
    }
  }

  /** `s.Split(sep)`: the pieces between separators, empty pieces included. */
  function Split(s: string, sep: char): (r: seq<string>)
    ensures |r| >= 1 && forall k :: 0 <= k < |r| ==> sep !in r[k]
  {
    if s == [] then [""]
    else
      var rest := Split(s[1..], sep);
      if s[0] == sep then [""] + rest else [[s[0]] + rest[0]] + rest[1..]
  }

  /** `string.Join(sep, parts)`. */
  function Join(parts: seq<string>, sep: char): string
    requires |parts| >= 1
  {
    if |parts| == 1 then parts[0] else parts[0] + [sep] + Join(parts[1..], sep)
  }

  /** Joining the pieces of a split gives back the string. */
  lemma {:induction false} SplitJoin(s: string, sep: char)
    ensures Join(Split(s, sep), sep) == s
  {
    if s != [] {
      SplitJoin(s[1..], sep);
      var rest := Split(s[1..], sep);
      if s[0] != sep {
        var r := Split(s, sep);
        if |rest| == 1 {
          assert r == [[s[0]] + rest[0]];
        } else {
          assert r[1..] == rest[1..];
          assert Join(r, sep) == [s[0]] + rest[0] + [sep] + Join(rest[1..], sep);
        }
      }
    }
  }

  /** A string without the separator is a single piece. */
  lemma {:induction false} SplitWithoutSeparator(s: string, sep: char)
    requires sep !in s
    ensures Split(s, sep) == [s]
  {
    if s != [] {
      assert sep !in s[1..];
      SplitWithoutSeparator(s[1..], sep);
      assert s[0] != sep;
      assert [s[0]] + s[1..] == s;
    }
  }

  /** `n` tab characters (`new string('\t', n)`). */
  function Tabs(n: nat): (r: string)
    ensures |r| == n && forall i :: 0 <= i < n ==> r[i] == '\t'
  {
    seq(n, _ => '\t')
  }

  // ---------------------------------------------------------------------------
  // Decimal numbers

  predicate IsDigit(c: char) {
    '0' <= c <= '9'
  }

  predicate AllDigits(s: string) {
    forall i :: 0 <= i < |s| ==> IsDigit(s[i])
  }

  /** The longest prefix of `s` made of digits (what a greedy `\d+` consumes). */
  function LeadingDigits(s: string): string {
    if s != [] && IsDigit(s[0]) then [s[0]] + LeadingDigits(s[1..]) else []
  }

  /** The run is a prefix of `s`, all digits, and stops at the first non-digit. */
  lemma {:induction false} LeadingDigitsShape(s: string)
    ensures var r := LeadingDigits(s);
      |r| <= |s| && r == s[..|r|] && AllDigits(r) && (|r| < |s| ==> !IsDigit(s[|r|]))
  {
    if s != [] && IsDigit(s[0]) {
      LeadingDigitsShape(s[1..]);
      var r := LeadingDigits(s);
      assert forall i :: 1 <= i < |r| ==> r[i] == LeadingDigits(s[1..])[i - 1];
    }
  }

  /** The greedy digit run of digits followed by a non-digit is those digits. */
  lemma {:induction false} LeadingDigitsOf(ds: string, rest: string)
    requires AllDigits(ds)
    requires rest == [] || !IsDigit(rest[0])
    ensures LeadingDigits(ds + rest) == ds
  {
    if ds != [] {
      assert (ds + rest)[1..] == ds[1..] + rest;
      LeadingDigitsOf(ds[1..], rest);
    } else {
      assert ds + rest == rest;
    }
  }

  function DigitChar(d: nat): (c: char)
    requires d < 10
    ensures IsDigit(c) && c as int - '0' as int == d
  {
    ('0' as int + d) as char
  }

  /** A digit is not white space. */
  lemma DigitNotWhite(c: char)
    requires IsDigit(c)
    ensures !IsWhiteSpace(c)
  {
  }

  /** The value of a string of decimal digits. */
  function DigitsValue(s: string): nat
    requires AllDigits(s)
  {
    if s == [] then 0 else DigitsValue(s[..|s| - 1]) * 10 + (s[|s| - 1] as int - '0' as int)
  }

  /** The decimal form of a natural number, without leading zeros. */
  function NatToString(n: nat): string {
    if n < 10 then [DigitChar(n)] else NatToString(n / 10) + [DigitChar(n % 10)]
  }

  /** The decimal form of n is a non-empty run of digits, with a leading zero only for 0 itself. */
  lemma {:induction false} NatToStringShape(n: nat)
    ensures var r := NatToString(n); |r| > 0 && AllDigits(r) && (r[0] == '0' ==> n == 0)
  {
    if n >= 10 {
      NatToStringShape(n / 10);
      var p := NatToString(n / 10);
      assert NatToString(n) == p + [DigitChar(n % 10)];
      assert NatToString(n)[0] == p[0];
    }
  }

  /** `int.ToString()` (invariant culture). */
  function IntToString(i: int): string {
    if i < 0 then "-" + NatToString(-i) else NatToString(i)
  }

  /** A non-negative number prints as digits; a negative one as '-' and digits; either ends with a digit. */
  lemma IntToStringShape(i: int)
    ensures var r := IntToString(i);
      |r| > 0 && IsDigit(r[|r| - 1]) &&
      (i >= 0 ==> AllDigits(r) && IsDigit(r[0])) &&
      (i < 0 ==> r[0] == '-' && |r| >= 2 && AllDigits(r[1..]))
  {
    if i < 0 {
      NatToStringShape(-i);
      assert IntToString(i)[1..] == NatToString(-i);
    } else {
      NatToStringShape(i);
    }
  }

  /** Reading back the digits printed for `n` gives `n`. */
  lemma {:induction false} DigitsValueOfNatToString(n: nat)
    ensures AllDigits(NatToString(n)) && DigitsValue(NatToString(n)) == n
  {
    NatToStringShape(n);
    if n >= 10 {
      DigitsValueOfNatToString(n / 10);
      var s := NatToString(n);
      assert s[..|s| - 1] == NatToString(n / 10);
    }
  }

  /**
   * `int.TryParse(s, out v)` with NumberStyles.Integer: optional white space,
   * an optional sign, one or more digits, optional white space, and a value
   * that fits in 32 bits. `None` is a failed parse (the out value is then 0).
   */
  function TryParseInt(s: string): Option<int> {
    ParseSigned(TrimEnd(TrimStart(s, IsNumberWhite), IsNumberWhite))
  }

  /** The sign-and-digits part of `int.TryParse`, after the white space is gone. */
  function ParseSigned(t: string): Option<int> {
    var hasSign := |t| > 0 && (t[0] == '-' || t[0] == '+');
    var body := if hasSign then t[1..] else t;
    if |body| == 0 || !AllDigits(body) then None
    else
      var v: int := if hasSign && t[0] == '-' then -(DigitsValue(body) as int) else DigitsValue(body);
      if MinInt32 <= v <= MaxInt32 then Some(v) else None
  }

  /** A successful `int.TryParse` yields a 32-bit value. */
  lemma TryParseRange(s: string)
    requires TryParseInt(s).Some?
    ensures MinInt32 <= TryParseInt(s).value <= MaxInt32
  {
  }

  /** Trimming a string that starts and ends with a kept character changes nothing. */
  lemma TrimBothUnchanged(s: string, ws: char -> bool)
    requires |s| > 0 && !ws(s[0]) && !ws(s[|s| - 1])
    ensures TrimEnd(TrimStart(s, ws), ws) == s
  {
    assert TrimStart(s, ws) == s;
  }

  /** The digits-with-sign parser reads back a printed 32-bit value. */
  lemma ParseSignedRoundTrip(v: int)
    requires MinInt32 <= v <= MaxInt32
    ensures ParseSigned(IntToString(v)) == Some(v)
  {
    var s := IntToString(v);
    IntToStringShape(v);
    if v < 0 {
      assert s[1..] == NatToString(-v);
      DigitsValueOfNatToString(-v);
    } else {
      DigitsValueOfNatToString(v);
    }
  }

  /** `int.TryParse` recovers every 32-bit value from its `ToString()`. */
  lemma IntRoundTrip(v: int)
    requires MinInt32 <= v <= MaxInt32
    ensures TryParseInt(IntToString(v)) == Some(v)
  {
    IntToStringShape(v);
    TrimBothUnchanged(IntToString(v), IsNumberWhite);
    ParseSignedRoundTrip(v);
  }

  /** A plain run of digits that fits in 32 bits parses to its value. */
  lemma TryParseDigits(ds: string)
    requires |ds| > 0 && AllDigits(ds) && DigitsValue(ds) <= MaxInt32
    ensures TryParseInt(ds) == Some(DigitsValue(ds) as int)
  {
    assert IsDigit(ds[0]) && IsDigit(ds[|ds| - 1]);
    TrimBothUnchanged(ds, IsNumberWhite);
    assert TryParseInt(ds) == ParseSigned(ds);
    assert ds[0] != '-' && ds[0] != '+';
  }

  /** A parse fails when the first non-blank character is neither a sign nor a digit. */
  lemma TryParseRejects(s: string)
    requires |s| > 0 && !IsNumberWhite(s[0]) && !IsDigit(s[0]) && s[0] != '-' && s[0] != '+'
    ensures TryParseInt(s) == None
  {
    var t0 := TrimStart(s, IsNumberWhite);
    assert t0 == s;
    var t := TrimEnd(s, IsNumberWhite);
    TrimEndShape(s, IsNumberWhite);
    if |t| > 0 {
      assert t[0] == s[0];
    }
  }
}
