/**
 * The string primitives of the .NET base library that the adapter relies on:
 * ordinal case-insensitive comparison and search (case folded on ASCII
 * letters), character and substring replacement, trimming of the whole
 * Char.IsWhiteSpace set, decimal formatting of an integer and Int32.TryParse.
 */
module Text {
  import opened Wrappers

  /** Case folding as OrdinalIgnoreCase does it on ASCII letters. */
  function ToLower(c: char): char
  {
    if 'A' <= c <= 'Z' then (c as int + 32) as char else c
  }

  /** String.Equals(a, b, StringComparison.OrdinalIgnoreCase) for a non-null b. */
  predicate EqualsIgnoreCase(a: string, b: string)
  {
    |a| == |b| && forall i :: 0 <= i < |a| ==> ToLower(a[i]) == ToLower(b[i])
  }

  /** p occurs in s at index i, ignoring case. */
  predicate OccursAt(s: string, p: string, i: int)
  {
    0 <= i && i + |p| <= |s| && EqualsIgnoreCase(s[i..i + |p|], p)
  }

  /** p occurs somewhere in s, ignoring case. */
  ghost predicate Occurs(s: string, p: string)
  {
    exists i :: OccursAt(s, p, i)
  }

  /** The first index at or after k where p occurs in s ignoring case, or -1. */
  function IndexOfFrom(s: string, p: string, k: nat): (r: int)
    requires k <= |s|
    ensures r == -1 || (k <= r && OccursAt(s, p, r))
    ensures r == -1 ==> forall j :: k <= j ==> !OccursAt(s, p, j)
    ensures r != -1 ==> forall j :: k <= j < r ==> !OccursAt(s, p, j)
    decreases |s| - k
  {
    if k + |p| > |s| then -1
    else if EqualsIgnoreCase(s[k..k + |p|], p) then k
    else IndexOfFrom(s, p, k + 1)
  }

  /** String.IndexOf(p, StringComparison.OrdinalIgnoreCase). */
  function IndexOfIgnoreCase(s: string, p: string): (r: int)
    ensures r >= 0 <==> Occurs(s, p)
    ensures r >= 0 ==> OccursAt(s, p, r) && forall j :: 0 <= j < r ==> !OccursAt(s, p, j)
    ensures r < 0 ==> r == -1
  {
    IndexOfFrom(s, p, 0)
  }

  /** Lower-casing every character. */
  function LowerAll(s: string): string
  {
    seq(|s|, i requires 0 <= i < |s| => ToLower(s[i]))
  }

  /** Against a lower-case b, lower-casing a and comparing is the ignore-case
      comparison. */
  lemma LowerAllEqualsIgnoreCase(a: string, b: string)
    requires forall i :: 0 <= i < |b| ==> ToLower(b[i]) == b[i]
    ensures LowerAll(a) == b <==> EqualsIgnoreCase(a, b)
  {
    if EqualsIgnoreCase(a, b) {
      assert forall i :: 0 <= i < |a| ==> LowerAll(a)[i] == b[i];
    }
  }

  /** Folding the case of a string first does not change where a pattern occurs. */
  lemma OccursAtLowerAll(s: string, p: string, i: int)
    ensures OccursAt(LowerAll(s), p, i) <==> OccursAt(s, p, i)
  {
    if 0 <= i && i + |p| <= |s| {
      var a, b := s[i..i + |p|], LowerAll(s)[i..i + |p|];
      assert forall k :: 0 <= k < |p| ==> ToLower(b[k]) == ToLower(a[k]);
    }
  }

  lemma OccursLowerAll(s: string, p: string)
    ensures Occurs(LowerAll(s), p) <==> Occurs(s, p)
  {
    if Occurs(s, p) {
      var i :| OccursAt(s, p, i);
      OccursAtLowerAll(s, p, i);
    }
    if Occurs(LowerAll(s), p) {
      var i :| OccursAt(LowerAll(s), p, i);
      OccursAtLowerAll(s, p, i);
    }
  }

  /** An occurrence inside s is still an occurrence inside any text around s. */
  lemma OccursInContext(a: string, s: string, b: string, p: string)
    requires Occurs(s, p)
    ensures Occurs(a + s + b, p)
  {
    var i :| OccursAt(s, p, i);
    var t := a + s + b;
    assert t[|a| + i..|a| + i + |p|] == s[i..i + |p|];
    assert OccursAt(t, p, |a| + i);
  }

  /** String.Replace(char, char) with these two characters. */
  function ReplaceChar(s: string, from: char, to: char): string
  {
    seq(|s|, i requires 0 <= i < |s| => if s[i] == from then to else s[i])
  }

  lemma ReplaceCharRemoves(s: string, from: char, to: char)
    requires from != to
    ensures from !in ReplaceChar(s, from, to)
    ensures |ReplaceChar(s, from, to)| == |s|
  {
    var r := ReplaceChar(s, from, to);
    forall i | 0 <= i < |r| ensures r[i] != from { }
  }

  /** String.Replace(string, string) with a non-empty pattern: every
      non-overlapping occurrence, scanned from the left, is replaced. */
  function ReplaceAll(s: string, pat: string, rep: string): string
    requires |pat| > 0
    decreases |s|
  {
    if |s| == 0 then []
    else if |pat| <= |s| && s[..|pat|] == pat then rep + ReplaceAll(s[|pat|..], pat, rep)
    else [s[0]] + ReplaceAll(s[1..], pat, rep)
  }

  /** The literal, case-sensitive occurrence of lit in s at pos. */
  predicate StartsAt(s: string, pos: int, lit: string)
  {
    0 <= pos && pos + |lit| <= |s| && s[pos..pos + |lit|] == lit
  }

  /** A string with no occurrence of the pattern is left as it is. */
  lemma {:induction false} ReplaceAllWithoutPattern(s: string, pat: string, rep: string)
    requires |pat| > 0
    requires forall i :: !StartsAt(s, i, pat)
    ensures ReplaceAll(s, pat, rep) == s
    decreases |s|
  {
    if |s| > 0 {
      assert !StartsAt(s, 0, pat);
      forall i ensures !StartsAt(s[1..], i, pat) {
        if 0 <= i && i + |pat| <= |s| - 1 {
          assert s[1..][i..i + |pat|] == s[i + 1..i + 1 + |pat|];
          assert !StartsAt(s, i + 1, pat);
        }
      }
      ReplaceAllWithoutPattern(s[1..], pat, rep);
    }
  }

  /** The first character of s after "%20" is replaced by "+". */
  lemma {:induction false} ReplacePercentHead(s: string)
    requires |s| > 0
    ensures |ReplaceAll(s, "%20", "+")| > 0
    ensures ReplaceAll(s, "%20", "+")[0] == if StartsAt(s, 0, "%20") then '+' else s[0]
  {
  }

  /** Replacing "%20" by "+" never produces a "%20" at the front. */
  lemma {:induction false} ReplacePercentNoneAtHead(s: string)
    ensures !StartsAt(ReplaceAll(s, "%20", "+"), 0, "%20")
  {
    var r := ReplaceAll(s, "%20", "+");
    if |r| >= 3 && r[0] == '%' {
      ReplacePercentHead(s);
      var r1 := ReplaceAll(s[1..], "%20", "+");
      assert r == [s[0]] + r1;
      assert |r1| >= 2;
      ReplacePercentHead(s[1..]);
      if r[1] == '2' {
        assert r1[0] == '2';
        var r2 := ReplaceAll(s[2..], "%20", "+");
        assert s[1..][1..] == s[2..];
        assert r1 == [s[1]] + r2;
        assert |r2| >= 1;
        ReplacePercentHead(s[2..]);
        assert r[2] == r2[0];
        assert s[..3] == [s[0], s[1], s[2]];
      }
    }
  }

  /** An occurrence after a one-character head is an occurrence in the tail. */
  lemma LiteralAfterHead(head: string, t: string, p: string, i: int)
    requires |head| == 1 && i >= 1
    ensures StartsAt(head + t, i, p) <==> StartsAt(t, i - 1, p)
  {
    if 0 <= i - 1 && i + |p| <= |head + t| {
      assert (head + t)[i..i + |p|] == t[i - 1..i - 1 + |p|];
    }
  }

  /** After replacing "%20" by "+" no "%20" is left. */
  lemma {:induction false} ReplacePercentLeavesNone(s: string)
    ensures forall i :: !StartsAt(ReplaceAll(s, "%20", "+"), i, "%20")
    decreases |s|
  {
    var r := ReplaceAll(s, "%20", "+");
    if |s| > 0 {
      var rest := if StartsAt(s, 0, "%20") then s[3..] else s[1..];
      ReplacePercentLeavesNone(rest);
      var rr := ReplaceAll(rest, "%20", "+");
      var head := if StartsAt(s, 0, "%20") then "+" else [s[0]];
      assert r == head + rr;
      ReplacePercentNoneAtHead(s);
      forall i ensures !StartsAt(r, i, "%20") {
        if i >= 1 {
          LiteralAfterHead(head, rr, "%20", i);
        }
      }
    } else {
      assert r == [];
    }
  }

  /** String.LastIndexOf for a one-character pattern: the last index of c, or -1. */
  function LastIndexOf(s: string, c: char): (r: int)
    ensures -1 <= r < |s|
    ensures r == -1 <==> c !in s
    ensures r >= 0 ==> r < |s| && s[r] == c && forall j :: r < j < |s| ==> s[j] != c
    decreases |s|
  {
    if |s| == 0 then -1
    else if s[|s| - 1] == c then |s| - 1
    else
      var r := LastIndexOf(s[..|s| - 1], c);
      assert s[..|s| - 1] + [s[|s| - 1]] == s;
      r
  }

  /** Removing a one-character pattern works piece by piece. */
  lemma {:induction false} RemoveCharConcat(a: string, b: string, c: char)
    ensures ReplaceAll(a + b, [c], "") == ReplaceAll(a, [c], "") + ReplaceAll(b, [c], "")
    decreases |a|
  {
    if |a| > 0 {
      assert (a + b)[1..] == a[1..] + b;
      assert (a + b)[..1] == a[..1];
      RemoveCharConcat(a[1..], b, c);
    } else {
      assert a + b == b;
    }
  }

  /** Replace(c, "") leaves no c. */
  lemma {:induction false} RemoveCharRemoves(s: string, c: char)
    ensures c !in ReplaceAll(s, [c], "")
    ensures forall x :: x != c ==> (x in ReplaceAll(s, [c], "") <==> x in s)
    decreases |s|
  {
    if |s| > 0 {
      RemoveCharRemoves(s[1..], c);
      assert s == [s[0]] + s[1..];
    }
  }

  /** Removing a character the string does not hold changes nothing. */
  lemma {:induction false} RemoveCharAbsent(s: string, c: char)
    requires c !in s
    ensures ReplaceAll(s, [c], "") == s
    decreases |s|
  {
    if |s| > 0 {
      assert s[1..] + [] == s[1..];
      assert c !in s[1..] by {
        forall j | 0 <= j < |s[1..]| ensures s[1..][j] != c {
          assert s[1..][j] == s[j + 1];
        }
      }
      RemoveCharAbsent(s[1..], c);
      assert s[..1] == [s[0]];
      assert [s[0]] + s[1..] == s;
    } else {
      assert ReplaceAll(s, [c], "") == [];
    }
  }

  /** Char.IsWhiteSpace, the set String.Trim cuts: U+0009 to U+000D, U+0085,
      the space separators (U+0020, U+00A0, U+1680, U+2000 to U+200A,
      U+202F, U+205F, U+3000) and the line and paragraph separators U+2028
      and U+2029. */
  predicate IsWhite(c: char)
  {
    c == ' ' || '\t' <= c <= '\r' || c == '\U{85}' || c == '\U{A0}' || c == '\U{1680}' ||
    '\U{2000}' <= c <= '\U{200A}' || c == '\U{2028}' || c == '\U{2029}' ||
    c == '\U{202F}' || c == '\U{205F}' || c == '\U{3000}'
  }

  /** The whitespace Int32.TryParse skips around the number under
      NumberStyles.Integer: U+0009 to U+000D and the space only. */
  predicate IsParseWhite(c: char)
  {
    c == ' ' || '\t' <= c <= '\r'
  }

  /** The index of the first character at or after i that TryParse does not
      skip as whitespace, |s| if none. */
  function SkipParseWhite(s: string, i: nat): (j: nat)
    requires i <= |s|
    ensures i <= j <= |s|
    ensures forall k :: i <= k < j ==> IsParseWhite(s[k])
    ensures j == |s| || !IsParseWhite(s[j])
    decreases |s| - i
  {
    if i < |s| && IsParseWhite(s[i]) then SkipParseWhite(s, i + 1) else i
  }

  /** The index of the first non-white character at or after i, |s| if none. */
  function SkipWhite(s: string, i: nat): (j: nat)
    requires i <= |s|
    ensures i <= j <= |s|
    ensures forall k :: i <= k < j ==> IsWhite(s[k])
    ensures j == |s| || !IsWhite(s[j])
    decreases |s| - i
  {
    if i < |s| && IsWhite(s[i]) then SkipWhite(s, i + 1) else i
  }

  /** The index just after the last non-white character before j, 0 if none. */
  function SkipWhiteBack(s: string, j: nat): (i: nat)
    requires j <= |s|
    ensures i <= j
    ensures forall k :: i <= k < j ==> IsWhite(s[k])
    ensures i == 0 || !IsWhite(s[i - 1])
  {
    if j > 0 && IsWhite(s[j - 1]) then SkipWhiteBack(s, j - 1) else j
  }

  /** String.TrimStart(). */
  function TrimStart(s: string): (r: string)
    ensures |r| <= |s| && r == s[|s| - |r|..]
    ensures forall k :: 0 <= k < |s| - |r| ==> IsWhite(s[k])
    ensures r == [] || !IsWhite(r[0])
  {
    s[SkipWhite(s, 0)..]
  }

  /** String.TrimEnd(). */
  function TrimEnd(s: string): (r: string)
    ensures |r| <= |s| && r == s[..|r|]
    ensures forall k :: |r| <= k < |s| ==> IsWhite(s[k])
    ensures r == [] || !IsWhite(r[|r| - 1])
  {
    s[..SkipWhiteBack(s, |s|)]
  }

  /** String.Trim(). */
  function Trim(s: string): string
  {
    TrimEnd(TrimStart(s))
  }

  /** A string that neither starts nor ends with whitespace is its own trim. */
  lemma TrimUnpadded(s: string)
    requires s == [] || (!IsWhite(s[0]) && !IsWhite(s[|s| - 1]))
    ensures Trim(s) == s
  {
  }

  predicate IsDigit(c: char)
  {
    '0' <= c <= '9'
  }

  predicate AllDigits(s: string)
  {
    forall i :: 0 <= i < |s| ==> IsDigit(s[i])
  }

  /** The characters of s from i to j are all digits. */
  predicate DigitsBetween(s: string, i: nat, j: nat)
    requires i <= j <= |s|
  {
    forall k :: i <= k < j ==> IsDigit(s[k])
  }

  /** The value of the digits of s from i to j, most significant first. */
  function SpanValue(s: string, i: nat, j: nat): nat
    requires i <= j <= |s| && DigitsBetween(s, i, j)
    decreases j
  {
    if j == i then 0
    else SpanValue(s, i, j - 1) * 10 + (s[j - 1] as int - '0' as int)
  }

  /** The value of a string of decimal digits. */
  function DigitsValue(s: string): nat
    requires AllDigits(s)
  {
    SpanValue(s, 0, |s|)
  }

  /** Characters appended after the span do not change its value. */
  lemma {:induction false} SpanValueAppend(a: string, b: string, i: nat, j: nat)
    requires i <= j <= |a| && DigitsBetween(a, i, j)
    ensures DigitsBetween(a + b, i, j)
    ensures SpanValue(a + b, i, j) == SpanValue(a, i, j)
    decreases j
  {
    assert forall k :: i <= k < j ==> (a + b)[k] == a[k];
    if j > i {
      SpanValueAppend(a, b, i, j - 1);
    }
  }

  /** The end of the run of digits that starts at i. */
  function DigitRun(s: string, i: nat): (j: nat)
    requires i <= |s|
    ensures i <= j <= |s| && DigitsBetween(s, i, j)
    ensures j == |s| || !IsDigit(s[j])
    decreases |s| - i
  {
    if i < |s| && IsDigit(s[i]) then DigitRun(s, i + 1) else i
  }

  function DigitChar(d: nat): (c: char)
    requires d < 10
    ensures IsDigit(c) && c as int - '0' as int == d
  {
    ('0' as int + d) as char
  }

  /** The decimal text StringBuilder.Append(int) writes for a non-negative value. */
  function NatToString(n: nat): (r: string)
    ensures |r| > 0 && AllDigits(r)
    ensures DigitsValue(r) == n
    ensures r[0] == '0' ==> n == 0
    decreases n
  {
    if n < 10 then
      var r := [DigitChar(n)];
      assert SpanValue(r, 0, 0) == 0;
      r
    else
      var prefix := NatToString(n / 10);
      var r := prefix + [DigitChar(n % 10)];
      SpanValueAppend(prefix, [DigitChar(n % 10)], 0, |prefix|);
      r
  }

  /** Different numbers are written differently. */
  lemma NatToStringInjective(m: nat, n: nat)
    requires NatToString(m) == NatToString(n)
    ensures m == n
  {
  }

  const MinInt32: int := -0x8000_0000
  const MaxInt32: int := 0x7fff_ffff

  /** Int32.TryParse(s, out v) with the default NumberStyles.Integer: leading
      whitespace, an optional sign, at least one decimal digit, trailing
      whitespace up to the end, and a value that fits in 32 bits. None is the
      false return. */
  function TryParseInt32(s: string): (r: Option<int>)
    ensures r.Some? ==> MinInt32 <= r.value <= MaxInt32
    ensures r.Some? ==> exists i :: 0 <= i < |s| && IsDigit(s[i])
    ensures r.Some? ==> forall i :: 0 <= i < |s| ==> IsParseWhite(s[i]) || IsDigit(s[i]) || s[i] == '-' || s[i] == '+'
  {
    var a := SkipParseWhite(s, 0);
    var signed := a < |s| && (s[a] == '-' || s[a] == '+');
    var start := if signed then a + 1 else a;
    var end := DigitRun(s, start);
    if end == start || SkipParseWhite(s, end) != |s| then None
    else
      var m := SpanValue(s, start, end);
      var v: int := if signed && s[a] == '-' then 0 - m else m;
      if MinInt32 <= v <= MaxInt32 then
        assert IsDigit(s[start]);
        Some(v)
      else None
  }

  /** Unlike Trim, TryParse does not skip a no-break space. */
  lemma NoBreakSpaceNotParsed()
    ensures TryParseInt32(['\U{A0}'] + "5").None?
  {
    assert !IsParseWhite(['\U{A0}'][0]);
  }

  /** A string of digits is read in full: no whitespace to skip, and the run
      of digits reaches the end. */
  lemma {:induction false} AllDigitsRun(s: string, i: nat)
    requires i <= |s| && AllDigits(s)
    ensures DigitRun(s, i) == |s|
    decreases |s| - i
  {
    if i < |s| {
      AllDigitsRun(s, i + 1);
    }
  }

  /** Parsing the decimal text of a number gives that number back. */
  lemma ParseFormatRoundTrip(n: nat)
    requires n <= MaxInt32
    ensures TryParseInt32(NatToString(n)) == Some(n)
  {
    var s := NatToString(n);
    assert !IsParseWhite(s[0]) && !IsDigit('-') && !IsDigit('+');
    AllDigitsRun(s, 0);
  }
}
