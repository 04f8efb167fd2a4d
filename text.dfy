/**
  The Python `str` operations LogSight relies on, over `string` (= `seq<char>`):
  `strip`, `startswith`, `endswith`, `in`, `replace`, `split`, `join`, slicing and
  ASCII `lower`.
 */
module Text {

  /** `str.isspace()` for one character; the regex class `\s` matches the same set. */
  predicate IsSpace(c: char) {
    || c == ' '
    || ('\t' <= c <= '\r')
    || ('\U{1C}' <= c <= '\U{1F}')
    || c == '\U{85}' || c == '\U{A0}' || c == '\U{1680}'
    || ('\U{2000}' <= c <= '\U{200A}')
    || c == '\U{2028}' || c == '\U{2029}' || c == '\U{202F}' || c == '\U{205F}' || c == '\U{3000}'
  }

  /** Every character is white space (`not s.strip()` in Python). */
  predicate IsBlank(s: string) {
    forall i | 0 <= i < |s| :: IsSpace(s[i])
  }

  /** `s.lstrip()` */
  function TrimStart(s: string): (r: string)
    ensures |r| <= |s| && r == s[|s| - |r|..]
    ensures r == [] || !IsSpace(r[0])
    ensures forall i | 0 <= i < |s| - |r| :: IsSpace(s[i])
  {
    if s != [] && IsSpace(s[0]) then TrimStart(s[1..]) else s
  }

  /** `s.rstrip()` */
  function TrimEnd(s: string): (r: string)
    ensures |r| <= |s| && r == s[..|r|]
    ensures r == [] || !IsSpace(r[|r| - 1])
    ensures forall i | |r| <= i < |s| :: IsSpace(s[i])
  {
    if s != [] && IsSpace(s[|s| - 1]) then TrimEnd(s[..|s| - 1]) else s
  }

  /** `s.strip()`: the longest infix that neither starts nor ends with white space. */
  function Strip(s: string): (r: string)
    ensures |r| <= |s|
    ensures r == [] || (!IsSpace(r[0]) && !IsSpace(r[|r| - 1]))
    ensures r == [] <==> IsBlank(s)
  {
    TrimEnd(TrimStart(s))
  }

  /** The slice up to the length is the whole sequence. */
  lemma WholeSlice<T>(s: seq<T>)
    ensures s[..|s|] == s
  {
  }

  /** Neither end is white space: `s.strip() == s`. */
  predicate Stripped(s: string) {
    s == [] || (!IsSpace(s[0]) && !IsSpace(s[|s| - 1]))
  }

  lemma StripOfStripped(s: string)
    requires Stripped(s)
    ensures Strip(s) == s
  {
  }

  /** Stripping a space in front of a stripped text gives the text. */
  lemma StripSpaceFirst(s: string)
    requires s != [] && Stripped(s)
    ensures Strip(" " + s) == s
  {
    assert (" " + s)[1..] == s;
  }

  /** Stripping only removes characters. */
  lemma StripKeepsOut(s: string, c: char)
    requires c !in s
    ensures c !in Strip(s)
  {
    var t := TrimStart(s);
    assert t == s[|s| - |t|..];
    assert TrimEnd(t) == t[..|TrimEnd(t)|];
  }

  /** A text found in the stripped string is found in the string. */
  lemma StripContains(s: string, p: string)
    requires Contains(Strip(s), p)
    ensures Contains(s, p)
  {
    var t := TrimStart(s);
    var r := TrimEnd(t);
    PrefixContains(t, |r|, p);
    SuffixContains(s, |s| - |t|, p);
  }

  /** A text found in a prefix is found in the string. */
  lemma PrefixContains(s: string, n: nat, p: string)
    requires n <= |s| && Contains(s[..n], p)
    ensures Contains(s, p)
  {
    assert s == s[..n] + s[n..];
    ContainsAppendRight(s[..n], s[n..], p);
  }

  /** A text found in a suffix is found in the string. */
  lemma SuffixContains(s: string, n: nat, p: string)
    requires n <= |s| && Contains(s[n..], p)
    ensures Contains(s, p)
  {
    assert s == s[..n] + s[n..];
    ContainsAppendLeft(s[..n], s[n..], p);
  }

  /** `s.startswith(p)` */
  predicate StartsWith(s: string, p: string) {
    |p| <= |s| && s[..|p|] == p
  }

  /** `s.endswith(p)` */
  predicate EndsWith(s: string, p: string) {
    |p| <= |s| && s[|s| - |p|..] == p
  }

  /** `p in s` for strings: `p` occurs somewhere in `s` as a contiguous substring. */
  predicate Contains(s: string, p: string)
    decreases |s|
  {
    StartsWith(s, p) || (s != [] && Contains(s[1..], p))
  }

  lemma {:induction false} ContainsAppendLeft(a: string, b: string, p: string)
    requires Contains(b, p)
    ensures Contains(a + b, p)
  {
    if a == [] {
      assert a + b == b;
    } else {
      assert (a + b)[1..] == a[1..] + b;
      ContainsAppendLeft(a[1..], b, p);
    }
  }

  lemma {:induction false} ContainsAppendRight(a: string, b: string, p: string)
    requires Contains(a, p)
    ensures Contains(a + b, p)
  {
    if StartsWith(a, p) {
      assert (a + b)[..|p|] == a[..|p|];
    } else {
      assert (a + b)[1..] == a[1..] + b;
      ContainsAppendRight(a[1..], b, p);
    }
  }

  /** A text occurring at position `k` is contained. */
  lemma {:induction false} ContainsAt(s: string, p: string, k: nat)
    requires k + |p| <= |s| && s[k..k + |p|] == p
    ensures Contains(s, p)
    decreases k
  {
    if k > 0 {
      assert s[1..][k - 1..k - 1 + |p|] == s[k..k + |p|];
      ContainsAt(s[1..], p, k - 1);
    }
  }

  /** A string shorter than the pattern cannot contain it. */
  lemma {:induction false} ContainsNeedsLength(s: string, p: string)
    requires Contains(s, p)
    ensures |p| <= |s|
  {
    if !StartsWith(s, p) {
      ContainsNeedsLength(s[1..], p);
    }
  }

  /** A character of a prefix is a character of the text. */
  lemma PrefixKeepsChar(s: string, p: string, c: char)
    ensures StartsWith(s, p) && c in p ==> c in s
  {
    if StartsWith(s, p) && c in p {
      var j :| 0 <= j < |p| && p[j] == c;
      assert s[j] == s[..|p|][j];
    }
  }

  /** A character of a contained text is a character of the text. */
  lemma {:induction false} ContainsKeepsChar(s: string, p: string, c: char)
    requires Contains(s, p) && c in p
    ensures c in s
    decreases |s|
  {
    if StartsWith(s, p) {
      PrefixKeepsChar(s, p, c);
    } else {
      ContainsKeepsChar(s[1..], p, c);
    }
  }

  /** A character of the text is a one-character text it contains. */
  lemma {:induction false} CharContained(s: string, c: char)
    requires c in s
    ensures Contains(s, [c])
    decreases |s|
  {
    if s[0] != c {
      CharContained(s[1..], c);
    }
  }

  /** `s.find(c)` when `c` occurs, and `|s|` when it does not. */
  function Find(s: string, c: char): (i: nat)
    ensures i <= |s|
    ensures i < |s| ==> s[i] == c
    ensures forall j | 0 <= j < i :: s[j] != c
    ensures i == |s| <==> c !in s
    decreases |s|
  {
    if s == [] || s[0] == c then 0 else 1 + Find(s[1..], c)
  }

  /** The position of the first `a` or `b` in `s`, or `|s|` when neither occurs (the end of
      the shortest match of a lazy pattern that stops at either character). */
  function FindEither(s: string, a: char, b: char): (i: nat)
    ensures i <= |s|
    ensures i < |s| ==> s[i] == a || s[i] == b
    ensures forall j | 0 <= j < i :: s[j] != a && s[j] != b
    decreases |s|
  {
    if s == [] || s[0] == a || s[0] == b then 0 else 1 + FindEither(s[1..], a, b)
  }

  /** The first `a` or `b` is the one that neither precedes. */
  lemma FindEitherIs(s: string, a: char, b: char, i: nat)
    requires i <= |s| && (i < |s| ==> s[i] == a || s[i] == b)
    requires forall j | 0 <= j < i :: s[j] != a && s[j] != b
    ensures FindEither(s, a, b) == i
  {
  }

  /** The first occurrence is the one no occurrence precedes. */
  lemma FindIs(s: string, c: char, i: nat)
    requires i <= |s| && (i < |s| ==> s[i] == c)
    requires forall j | 0 <= j < i :: s[j] != c
    ensures Find(s, c) == i
  {
  }

  /** `s.replace(pat, rep)`: every non-overlapping occurrence, scanned left to right. */
  function Replace(s: string, pat: string, rep: string): (r: string)
    requires pat != []
    decreases |s|
  {
    if |s| < |pat| then s
    else if s[..|pat|] == pat then rep + Replace(s[|pat|..], pat, rep)
    else [s[0]] + Replace(s[1..], pat, rep)
  }

  /** A pattern that does not occur is not replaced. */
  lemma {:induction false} ReplaceAbsent(s: string, pat: string, rep: string)
    requires pat != [] && !Contains(s, pat)
    ensures Replace(s, pat, rep) == s
    decreases |s|
  {
    if |s| >= |pat| {
      ReplaceAbsent(s[1..], pat, rep);
      assert s == [s[0]] + s[1..];
    }
  }

  /** After replacing a character by something free of it, the character is gone. */
  lemma {:induction false} ReplaceCharRemoves(s: string, c: char, rep: string)
    requires c !in rep
    ensures c !in Replace(s, [c], rep)
    decreases |s|
  {
    if |s| >= 1 {
      ReplaceCharRemoves(s[1..], c, rep);
    }
  }

  /** `s.split(sep)` for a one-character separator. */
  function Split(s: string, sep: char): (parts: seq<string>)
    ensures |parts| >= 1
    ensures forall k | 0 <= k < |parts| :: sep !in parts[k]
    decreases |s|
  {
    if s == [] then [""]
    else
      var rest := Split(s[1..], sep);
      if s[0] == sep then [""] + rest
      else [[s[0]] + rest[0]] + rest[1..]
  }

  /** `sep.join(parts)` */
  function Join(parts: seq<string>, sep: string): string
    decreases |parts|
  {
    if parts == [] then ""
    else if |parts| == 1 then parts[0]
    else parts[0] + sep + Join(parts[1..], sep)
  }

  /** Splitting and joining back with the same separator gives the original text. */
  lemma {:induction false} JoinSplit(s: string, sep: char)
    ensures Join(Split(s, sep), [sep]) == s
    decreases |s|
  {
    if s != [] {
      var rest := Split(s[1..], sep);
      JoinSplit(s[1..], sep);
      if s[0] == sep {
        assert Split(s, sep) == [""] + rest;
        assert Join([""] + rest, [sep]) == "" + [sep] + Join(rest, [sep]);
      } else {
        var parts := Split(s, sep);
        assert parts == [[s[0]] + rest[0]] + rest[1..];
        if |rest| == 1 {
          assert Join(parts, [sep]) == [s[0]] + rest[0];
        } else {
          assert parts[1..] == rest[1..];
          assert Join(rest, [sep]) == rest[0] + [sep] + Join(rest[1..], [sep]);
        }
      }
    }
  }

  /** A part of a split occurs inside the split text. */
  lemma SplitPartInside(s: string, sep: char, k: nat, p: string)
    requires k < |Split(s, sep)| && Contains(Split(s, sep)[k], p)
    ensures Contains(s, p)
  {
    JoinSplit(s, sep);
    JoinPartInside(Split(s, sep), [sep], k, p);
  }

  lemma {:induction false} JoinPartInside(parts: seq<string>, sep: string, k: nat, p: string)
    requires k < |parts| && Contains(parts[k], p)
    ensures Contains(Join(parts, sep), p)
    decreases |parts|
  {
    if |parts| == 1 {
    } else if k == 0 {
      ContainsAppendRight(parts[0], sep + Join(parts[1..], sep), p);
      assert parts[0] + sep + Join(parts[1..], sep) == parts[0] + (sep + Join(parts[1..], sep));
    } else {
      JoinPartInside(parts[1..], sep, k - 1, p);
      ContainsAppendLeft(parts[0] + sep, Join(parts[1..], sep), p);
    }
  }

  /** `s[:n]` for `n >= 0`. */
  function Take(s: string, n: nat): (r: string)
    ensures |r| <= n && StartsWith(s, r)
    ensures |s| <= n ==> r == s
    ensures |s| > n ==> |r| == n
  {
    if |s| <= n then s else s[..n]
  }

  /** Python `str.lower()` on the ASCII letters; other characters are unchanged. */
  function Lower(s: string): (r: string)
    ensures |r| == |s|
    ensures forall i | 0 <= i < |s| :: r[i] == LowerChar(s[i])
  {
    seq(|s|, i requires 0 <= i < |s| => LowerChar(s[i]))
  }

  function LowerChar(c: char): char {
    if 'A' <= c <= 'Z' then (c as int - 'A' as int + 'a' as int) as char else c
  }

  /** A lower-case letter that is in `s` neither as itself nor as its capital is not in
      `s.lower()`. */
  lemma LowerAbsent(s: string, c: char, cap: char)
    requires 'a' <= c <= 'z' && cap as int == c as int - 32
    requires c !in s && cap !in s
    ensures c !in Lower(s)
  {
    forall i | 0 <= i < |s| ensures Lower(s)[i] != c {
      assert s[i] in s;
    }
  }

  /** A letter that occurs once, counting its capital, is never next to itself in the lower-cased
      text. */
  lemma LowerSingle(a: string, c: char, cap: char, b: string, i: nat)
    requires 'a' <= c <= 'z' && cap as int == c as int - 32
    requires c !in a && cap !in a && c !in b && cap !in b
    requires i + 1 < |a| + 1 + |b|
    ensures !(Lower(a + [c] + b)[i] == c && Lower(a + [c] + b)[i + 1] == c)
  {
    var s := a + [c] + b;
    if i < |a| {
      assert s[i] == a[i];
      assert a[i] in a;
    } else {
      assert s[i + 1] == b[i - |a|];
      assert b[i - |a|] in b;
    }
  }

  /** The number of occurrences of one character. */
  function Count(s: string, c: char): nat
    decreases |s|
  {
    if s == [] then 0 else (if s[0] == c then 1 else 0) + Count(s[1..], c)
  }

  lemma {:induction false} CountAppend(a: string, b: string, c: char)
    ensures Count(a + b, c) == Count(a, c) + Count(b, c)
    decreases |a|
  {
    if a == [] {
      assert a + b == b;
    } else {
      assert (a + b)[1..] == a[1..] + b;
      CountAppend(a[1..], b, c);
    }
  }

  lemma {:induction false} CountAbsent(s: string, c: char)
    requires c !in s
    ensures Count(s, c) == 0
    decreases |s|
  {
    if s != [] {
      CountAbsent(s[1..], c);
    }
  }

  /** Lexicographic `<=` on code points: Python string comparison and SQLite's BINARY collation on ASCII text. */
  predicate LexLeq(a: string, b: string)
    decreases |a|
  {
    a == [] || (b != [] && (a[0] < b[0] || (a[0] == b[0] && LexLeq(a[1..], b[1..]))))
  }

  /** The decimal rendering of an integer, as `str(i)` gives it. */
  function DecimalString(i: int): (r: string)
    ensures r != []
  {
    if i < 0 then "-" + NatDigits(-i) else NatDigits(i)
  }

  function NatDigits(n: nat): (r: string)
    ensures r != []
    ensures forall k | 0 <= k < |r| :: '0' <= r[k] <= '9'
    decreases n
  {
    if n < 10 then [Digit(n)] else NatDigits(n / 10) + [Digit(n % 10)]
  }

  function Digit(d: nat): (c: char)
    requires d < 10
    ensures '0' <= c <= '9'
  {
    ('0' as int + d) as char
  }
}
