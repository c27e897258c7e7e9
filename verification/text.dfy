/** The Python string operations the tools rely on: str.strip(),
    "sep".join(...), the `in` substring test, str.lower() and str(int). */
module Text {
  import opened Wrappers

  // ---------------------------------------------------------------- strip

  /** Python's str.isspace(): the characters str.strip() removes. */
  predicate IsSpace(c: char) {
    c in Whitespace
  }

  /** Tab through carriage return, the four separator controls, space, and
      the Unicode spaces and line/paragraph separators. */
  const Whitespace: set<char> := {'\t', '\n', '\U{B}', '\U{C}', '\r', '\U{1C}', '\U{1D}', '\U{1E}', '\U{1F}', ' ',
    '\U{85}', '\U{A0}', '\U{1680}', '\U{2000}', '\U{2001}', '\U{2002}', '\U{2003}', '\U{2004}', '\U{2005}',
    '\U{2006}', '\U{2007}', '\U{2008}', '\U{2009}', '\U{200A}', '\U{2028}', '\U{2029}', '\U{202F}',
    '\U{205F}', '\U{3000}'}

  /** Every character of s in [from, to) is whitespace. */
  predicate SpaceBetween(s: string, from: int, to: int)
    requires 0 <= from && to <= |s|
  {
    forall k :: from <= k < to ==> IsSpace(s[k])
  }

  /** First index at or after i that is not whitespace (|s| if none). */
  function SpaceEnd(s: string, i: nat): (n: nat)
    requires i <= |s|
    ensures i <= n <= |s| && SpaceBetween(s, i, n)
    ensures n == |s| || !IsSpace(s[n])
    decreases |s| - i
  {
    if i < |s| && IsSpace(s[i]) then SpaceEnd(s, i + 1) else i
  }

  /** Last index at or before j whose left neighbour is not whitespace (0 if
      none). */
  function SpaceStart(s: string, j: nat): (n: nat)
    requires j <= |s|
    ensures n <= j && SpaceBetween(s, n, j)
    ensures n == 0 || !IsSpace(s[n - 1])
  {
    if j > 0 && IsSpace(s[j - 1]) then SpaceStart(s, j - 1) else j
  }

  /** str.lstrip(): drops the leading whitespace and nothing else. */
  function StripLeft(s: string): (r: string)
    ensures |r| <= |s| && r == s[|s| - |r|..]
    ensures SpaceBetween(s, 0, |s| - |r|)
    ensures r == [] || !IsSpace(r[0])
  {
    s[SpaceEnd(s, 0)..]
  }

  /** str.rstrip(): drops the trailing whitespace and nothing else. */
  function StripRight(s: string): (r: string)
    ensures |r| <= |s| && r == s[..|r|]
    ensures SpaceBetween(s, |r|, |s|)
    ensures r == [] || !IsSpace(r[|r| - 1])
  {
    s[..SpaceStart(s, |s|)]
  }

  /** str.strip() with no argument. */
  function Strip(s: string): string {
    StripRight(StripLeft(s))
  }

  /** s[i..j] is what is left once only whitespace is cut from both ends of
      s, and it has none left at either end. */
  predicate TrimBounds(s: string, i: int, j: int) {
    && 0 <= i <= j <= |s|
    && SpaceBetween(s, 0, i)
    && SpaceBetween(s, j, |s|)
    && (i == j || (!IsSpace(s[i]) && !IsSpace(s[j - 1])))
  }

  /** Reference definition of trimming: t is such a slice of s. */
  ghost predicate IsTrimOf(s: string, t: string) {
    exists i, j :: TrimBounds(s, i, j) && t == s[i..j]
  }

  /** Whitespace in a suffix of s is whitespace in s, shifted by the
      suffix's offset. */
  lemma SpaceInSuffix(s: string, i: int, from: int)
    requires 0 <= i <= |s| && 0 <= from <= |s| - i
    requires SpaceBetween(s[i..], from, |s| - i)
    ensures SpaceBetween(s, i + from, |s|)
  {
    forall k | i + from <= k < |s|
      ensures IsSpace(s[k])
    {
      assert s[k] == s[i..][k - i];
    }
  }

  /** The trim bounds, from what lstrip and rstrip each promise about
      their own result. */
  lemma TrimBoundsOfParts(s: string, u: string, r: string)
    requires |u| <= |s| && u == s[|s| - |u|..]
    requires SpaceBetween(s, 0, |s| - |u|)
    requires u == [] || !IsSpace(u[0])
    requires |r| <= |u| && r == u[..|r|]
    requires SpaceBetween(u, |r|, |u|)
    requires r == [] || !IsSpace(r[|r| - 1])
    ensures TrimBounds(s, |s| - |u|, |s| - |u| + |r|)
    ensures r == s[|s| - |u|..|s| - |u| + |r|]
  {
    var i := |s| - |u|;
    SpaceInSuffix(s, i, |r|);
    if r != [] {
      assert s[i] == r[0];
      assert s[i + |r| - 1] == r[|r| - 1];
    }
  }

  /** Strip keeps the slice between the leading and trailing whitespace. */
  lemma StripBounds(s: string) returns (i: nat, j: nat)
    ensures TrimBounds(s, i, j) && Strip(s) == s[i..j]
  {
    var u := StripLeft(s);
    var r := StripRight(u);
    TrimBoundsOfParts(s, u, r);
    i := |s| - |u|;
    j := i + |r|;
  }

  /** Two trims of the same string are the same slice. */
  lemma TrimBoundsUnique(s: string, i: int, j: int, i2: int, j2: int)
    requires TrimBounds(s, i, j) && TrimBounds(s, i2, j2)
    ensures s[i..j] == s[i2..j2]
  {
  }

  /** Strip computes exactly the trim of its argument: it is one, and it is
      the only one. */
  lemma StripIsTheTrim(s: string, t: string)
    ensures IsTrimOf(s, t) <==> t == Strip(s)
  {
    var i, j := StripBounds(s);
    if IsTrimOf(s, t) {
      var i2, j2 :| TrimBounds(s, i2, j2) && t == s[i2..j2];
      TrimBoundsUnique(s, i, j, i2, j2);
    }
  }

  // ---------------------------------------------------------- join, split

  /** Python's `sep.join(parts)` for a one-character separator. */
  function Join(parts: seq<string>, sep: char): string {
    if |parts| == 0 then ""
    else if |parts| == 1 then parts[0]
    else parts[0] + [sep] + Join(parts[1..], sep)
  }

  /** The pieces of s between separators, the first one extending the
      piece cur already begun. */
  function SplitFrom(s: string, sep: char, cur: string): (r: seq<string>)
    ensures |r| >= 1
  {
    if |s| == 0 then [cur]
    else if s[0] == sep then [cur] + SplitFrom(s[1..], sep, "")
    else SplitFrom(s[1..], sep, cur + [s[0]])
  }

  /** Python's `s.split(sep)`: the pieces between separators, at least one. */
  function Split(s: string, sep: char): (r: seq<string>)
    ensures |r| >= 1
  {
    SplitFrom(s, sep, "")
  }

  /** Text without the separator ends the current piece. */
  lemma {:induction false} SplitFromWithoutSep(s: string, sep: char, cur: string)
    requires sep !in s
    ensures SplitFrom(s, sep, cur) == [cur + s]
  {
    if |s| > 0 {
      SplitFromWithoutSep(s[1..], sep, cur + [s[0]]);
      assert cur + [s[0]] + s[1..] == cur + s;
    } else {
      assert cur + s == cur;
    }
  }

  /** Text without the separator is a single piece. */
  lemma SplitWithoutSep(s: string, sep: char)
    requires sep !in s
    ensures Split(s, sep) == [s]
  {
    SplitFromWithoutSep(s, sep, "");
    assert "" + s == s;
  }

  /** A separator between a and b ends a's last piece and starts b's
      first. */
  lemma {:induction false} SplitFromConcat(a: string, b: string, sep: char, cur: string)
    ensures SplitFrom(a + [sep] + b, sep, cur) == SplitFrom(a, sep, cur) + Split(b, sep)
  {
    var whole := a + [sep] + b;
    if |a| == 0 {
      assert whole[0] == sep && whole[1..] == b;
    } else {
      assert whole[0] == a[0] && whole[1..] == a[1..] + [sep] + b;
      if a[0] == sep {
        SplitFromConcat(a[1..], b, sep, "");
      } else {
        SplitFromConcat(a[1..], b, sep, cur + [a[0]]);
      }
    }
  }

  /** Splitting at a separator placed between two strings splits each side
      on its own. */
  lemma SplitConcat(a: string, b: string, sep: char)
    ensures Split(a + [sep] + b, sep) == Split(a, sep) + Split(b, sep)
  {
    SplitFromConcat(a, b, sep, "");
  }

  /** Joining lines free of the separator and splitting the result gives the
      lines back, one for one and in order. */
  lemma {:induction false} SplitJoin(parts: seq<string>, sep: char)
    requires |parts| >= 1
    requires forall k :: 0 <= k < |parts| ==> sep !in parts[k]
    ensures Split(Join(parts, sep), sep) == parts
  {
    SplitWithoutSep(parts[0], sep);
    if |parts| > 1 {
      SplitConcat(parts[0], Join(parts[1..], sep), sep);
      SplitJoin(parts[1..], sep);
      assert parts == [parts[0]] + parts[1..];
    }
  }

  /** Joining the pieces gives back the text, after the piece begun. */
  lemma {:induction false} JoinSplitFrom(s: string, sep: char, cur: string)
    ensures Join(SplitFrom(s, sep, cur), sep) == cur + s
  {
    if |s| == 0 {
      assert cur + s == cur;
    } else if s[0] == sep {
      var rest := SplitFrom(s[1..], sep, "");
      JoinSplitFrom(s[1..], sep, "");
      assert ([cur] + rest)[1..] == rest;
      assert "" + s[1..] == s[1..];
      assert cur + [sep] + s[1..] == cur + s;
    } else {
      JoinSplitFrom(s[1..], sep, cur + [s[0]]);
      assert cur + [s[0]] + s[1..] == cur + s;
    }
  }

  /** Joining the pieces of a split gives the text back. */
  lemma JoinSplit(s: string, sep: char)
    ensures Join(Split(s, sep), sep) == s
  {
    JoinSplitFrom(s, sep, "");
    assert "" + s == s;
  }

  /** Whatever text comes first, separator-joined lines appended after a
      separator come back as the last pieces of the split. */
  lemma SplitEndsWithLines(head: string, lines: seq<string>, sep: char)
    requires |lines| >= 1
    requires forall k :: 0 <= k < |lines| ==> sep !in lines[k]
    ensures var pieces := Split(head + [sep] + Join(lines, sep), sep);
            |pieces| > |lines| && pieces[|pieces| - |lines|..] == lines
  {
    SplitConcat(head, Join(lines, sep), sep);
    SplitJoin(lines, sep);
    var first := Split(head, sep);
    assert (first + lines)[|first|..] == lines;
  }

  /** The lines joined after a non-empty list of leading parts come back as
      the last pieces of the split of the whole join. */
  lemma SplitJoinSuffix(base: seq<string>, lines: seq<string>, sep: char)
    requires |base| >= 1 && |lines| >= 1
    requires forall k :: 0 <= k < |lines| ==> sep !in lines[k]
    ensures var pieces := Split(Join(base + lines, sep), sep);
            |pieces| > |lines| && pieces[|pieces| - |lines|..] == lines
  {
    JoinAppend(base, lines, sep);
    SplitEndsWithLines(Join(base, sep), lines, sep);
  }

  /** A header line followed by separator-joined lines splits back into the
      header and the lines. */
  lemma SplitHeaderAndLines(header: string, lines: seq<string>, sep: char)
    requires |lines| >= 1 && sep !in header
    requires forall k :: 0 <= k < |lines| ==> sep !in lines[k]
    ensures Split(header + [sep] + Join(lines, sep), sep) == [header] + lines
  {
    var all := [header] + lines;
    assert all[1..] == lines;
    SplitJoin(all, sep);
  }

  /** Every part of a join occurs in the joined text. */
  lemma {:induction false} JoinShowsPart(parts: seq<string>, k: int, sep: char)
    requires 0 <= k < |parts|
    ensures Contains(Join(parts, sep), parts[k])
  {
    var s := Join(parts, sep);
    if |parts| == 1 {
      OccursInMiddle([], parts[0], []);
      assert [] + parts[0] + [] == s;
    } else if k == 0 {
      OccursInMiddle([], parts[0], [sep] + Join(parts[1..], sep));
      assert [] + parts[0] + ([sep] + Join(parts[1..], sep)) == s;
    } else {
      var rest := Join(parts[1..], sep);
      JoinShowsPart(parts[1..], k - 1, sep);
      ContainsIff(rest, parts[k]);
      var i :| OccursAt(parts[k], rest, i);
      var off := |parts[0]| + 1;
      assert s == parts[0] + [sep] + rest;
      assert s[off + i..off + i + |parts[k]|] == rest[i..i + |parts[k]|];
      assert OccursAt(parts[k], s, off + i);
      ContainsIff(s, parts[k]);
    }
  }

  /** Joining two non-empty lists puts one separator between the halves. */
  lemma {:induction false} JoinAppend(a: seq<string>, b: seq<string>, sep: char)
    requires |a| >= 1 && |b| >= 1
    ensures Join(a + b, sep) == Join(a, sep) + [sep] + Join(b, sep)
  {
    if |a| == 1 {
      assert (a + b)[1..] == b;
    } else {
      assert (a + b)[1..] == a[1..] + b;
      JoinAppend(a[1..], b, sep);
    }
  }

  // ------------------------------------------------------------ substring

  /** needle sits in haystack starting at index i. */
  predicate OccursAt(needle: string, haystack: string, i: int) {
    0 <= i && i + |needle| <= |haystack| && haystack[i..i + |needle|] == needle
  }

  /** Python's `needle in haystack` for strings, scanning left to right. */
  function Contains(haystack: string, needle: string): bool
    decreases |haystack|
  {
    if |needle| > |haystack| then false
    else haystack[..|needle|] == needle || Contains(haystack[1..], needle)
  }

  /** The scan finds the needle exactly when it occurs at some index. */
  lemma {:induction false} ContainsIff(haystack: string, needle: string)
    ensures Contains(haystack, needle) <==> exists i :: OccursAt(needle, haystack, i)
    decreases |haystack|
  {
    if |needle| > |haystack| {
      assert forall i :: !OccursAt(needle, haystack, i);
    } else if haystack[..|needle|] == needle {
      assert OccursAt(needle, haystack, 0);
    } else {
      var tail := haystack[1..];
      ContainsIff(tail, needle);
      if Contains(tail, needle) {
        var i :| OccursAt(needle, tail, i);
        assert haystack[i + 1..i + 1 + |needle|] == tail[i..i + |needle|];
        assert OccursAt(needle, haystack, i + 1);
      } else {
        forall i | OccursAt(needle, haystack, i)
          ensures false
        {
          assert i != 0;
          assert tail[i - 1..i - 1 + |needle|] == haystack[i..i + |needle|];
          assert OccursAt(needle, tail, i - 1);
        }
      }
    }
  }

  /** A string sits inside a concatenation that has it as a middle part. */
  lemma OccursInMiddle(a: string, t: string, b: string)
    ensures Contains(a + t + b, t)
  {
    var s := a + t + b;
    assert s[|a|..|a| + |t|] == t;
    assert OccursAt(t, s, |a|);
    ContainsIff(s, t);
  }

  // ------------------------------------------------------------ lower case

  /** Lower-cases an ASCII letter; every other character is kept. */
  function LowerChar(c: char): char {
    if 'A' <= c <= 'Z' then (c as int + 32) as char else c
  }

  /** str.lower(), restricted to ASCII letters. */
  function Lower(s: string): (r: string)
    ensures |r| == |s|
  {
    seq(|s|, k requires 0 <= k < |s| => LowerChar(s[k]))
  }

  // ------------------------------------------------------- decimal numbers

  predicate IsDigit(c: char) {
    '0' <= c <= '9'
  }

  predicate AllDigits(s: string) {
    forall k :: 0 <= k < |s| ==> IsDigit(s[k])
  }

  function DigitChar(d: nat): char
    requires d < 10
  {
    ('0' as int + d) as char
  }

  function DigitValue(c: char): nat
    requires IsDigit(c)
  {
    c as int - '0' as int
  }

  /** str(n) for a non-negative integer: decimal digits, without leading
      zeros. */
  function NatToString(n: nat): (r: string)
    ensures |r| >= 1 && AllDigits(r)
    ensures r[0] == '0' <==> n == 0
    ensures n == 0 ==> r == "0"
  {
    if n < 10 then [DigitChar(n)]
    else NatToString(n / 10) + [DigitChar(n % 10)]
  }

  /** Reads back a string of decimal digits. */
  function ParseNat(s: string): nat
    requires AllDigits(s)
  {
    if |s| == 0 then 0 else 10 * ParseNat(s[..|s| - 1]) + DigitValue(s[|s| - 1])
  }

  lemma {:induction false} ParseNatToString(n: nat)
    ensures ParseNat(NatToString(n)) == n
  {
    if n >= 10 {
      var s := NatToString(n);
      assert s[..|s| - 1] == NatToString(n / 10);
      ParseNatToString(n / 10);
    }
  }

  /** str(i): a minus sign before the digits of a negative number. */
  function IntToString(i: int): (r: string)
    ensures |r| >= 1 && (r[0] == '-' <==> i < 0)
    ensures AllDigits(if i < 0 then r[1..] else r)
  {
    if i < 0 then "-" + NatToString(-i) else NatToString(i)
  }

  /** Reads an optionally signed decimal number; None for anything else. */
  function ParseInt(s: string): Option<int> {
    if |s| >= 2 && s[0] == '-' && AllDigits(s[1..]) then
      var n: int := ParseNat(s[1..]);
      Some(-n)
    else if |s| >= 1 && AllDigits(s) then Some(ParseNat(s))
    else None
  }

  /** Every integer reads back from its rendering. */
  lemma IntToStringRoundTrip(i: int)
    ensures ParseInt(IntToString(i)) == Some(i)
  {
    if i < 0 {
      var d := NatToString(-i);
      ParseNatToString(-i);
      var s := "-" + d;
      assert s[1..] == d;
      assert s == IntToString(i);
    } else {
      var d := NatToString(i);
      ParseNatToString(i);
      assert IsDigit(d[0]);
    }
  }

  /** A rendered integer holds no line break. */
  lemma IntToStringHasNoNewline(i: int)
    ensures '\n' !in IntToString(i)
  {
  }
}
