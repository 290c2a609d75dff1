/** The string operations the scraper relies on, restricted to ASCII: Python's `str.strip`,
    `str.lower`, `in` on strings, `str.split`, `int` on a decimal literal and `str` on an int. */
module Text {
  import opened Wrappers

  /** Python's `str.isspace` on ASCII: space, \t \n \v \f \r and the separators 0x1C-0x1F.
      The regular-expression class `\s` matches the same characters. */
  predicate IsSpace(c: char) {
    c == ' ' || ('\t' <= c <= '\r') || (28 <= c as int <= 31)
  }

  predicate IsDigit(c: char) {
    '0' <= c <= '9'
  }

  predicate AllDigits(s: string) {
    forall k :: 0 <= k < |s| ==> IsDigit(s[k])
  }

  predicate AllSpace(s: string) {
    forall k :: 0 <= k < |s| ==> IsSpace(s[k])
  }

  // ---------------------------------------------------------------------------
  // str.strip()

  /** `s.lstrip()`: the suffix of `s` left after dropping leading whitespace. */
  function TrimStart(s: string): (r: string)
    ensures |r| <= |s| && r == s[|s| - |r|..]
    ensures forall k :: 0 <= k < |s| - |r| ==> IsSpace(s[k])
    ensures r == [] || !IsSpace(r[0])
  {
    if s != [] && IsSpace(s[0]) then TrimStart(s[1..]) else s
  }

  /** `s.rstrip()`: the prefix of `s` left after dropping trailing whitespace. */
  function TrimEnd(s: string): (r: string)
    ensures |r| <= |s| && r == s[..|r|]
    ensures forall k :: |r| <= k < |s| ==> IsSpace(s[k])
    ensures r == [] || !IsSpace(r[|r| - 1])
  {
    if s != [] && IsSpace(s[|s| - 1]) then TrimEnd(s[..|s| - 1]) else s
  }

  /** `s.strip()`: starts and ends with a non-space character; empty exactly when `s` is
      all whitespace. */
  function Strip(s: string): (r: string)
    ensures r == [] || (!IsSpace(r[0]) && !IsSpace(r[|r| - 1]))
    ensures r == [] <==> AllSpace(s)
  {
    var t := TrimStart(s);
    var r := TrimEnd(t);
    assert r == [] ==> t == [];
    r
  }

  /** `s.strip()` is the slice `s[i..i + |r|]` with only whitespace outside it. */
  lemma {:induction false} StripIsSlice(s: string) returns (i: nat)
    ensures var r := Strip(s);
            i + |r| <= |s| && r == s[i..i + |r|] && AllSpace(s[..i]) && AllSpace(s[i + |r|..])
  {
    var t := TrimStart(s);
    var r := TrimEnd(t);
    i := |s| - |t|;
    assert Strip(s) == r;
    TrimStartSpaces(s);
    TrimEndSpaces(t);
    assert t == s[i..] && r == t[..|r|];
    SliceOfSuffix(s, i, |r|);
  }

  /** Slicing a suffix is slicing the whole string further along. */
  lemma {:induction false} SliceOfSuffix(s: string, i: nat, n: nat)
    requires i + n <= |s|
    ensures s[i..][..n] == s[i..i + n] && s[i..][n..] == s[i + n..]
  {
  }

  /** What `lstrip` drops is whitespace. */
  lemma {:induction false} TrimStartSpaces(s: string)
    ensures AllSpace(s[..|s| - |TrimStart(s)|])
  {
    var i := |s| - |TrimStart(s)|;
    forall k | 0 <= k < i
      ensures IsSpace(s[..i][k])
    {
      assert s[..i][k] == s[k];
    }
  }

  /** What `rstrip` drops is whitespace. */
  lemma {:induction false} TrimEndSpaces(t: string)
    ensures AllSpace(t[|TrimEnd(t)|..])
  {
    var n := |TrimEnd(t)|;
    forall k | 0 <= k < |t| - n
      ensures IsSpace(t[n..][k])
    {
      assert t[n..][k] == t[n + k];
    }
  }

  /** Leading whitespace is all that `lstrip` removes. */
  lemma {:induction false} TrimStartPadded(pre: string, t: string)
    requires AllSpace(pre) && (t == [] || !IsSpace(t[0]))
    ensures TrimStart(pre + t) == t
    decreases |pre|
  {
    if pre == [] {
      assert pre + t == t;
      TrimStartKeeps(t);
    } else {
      assert (pre + t)[1..] == pre[1..] + t;
      TrimStartPadded(pre[1..], t);
    }
  }

  /** Trailing whitespace is all that `rstrip` removes. */
  lemma {:induction false} TrimEndPadded(t: string, post: string)
    requires AllSpace(post) && (t == [] || !IsSpace(t[|t| - 1]))
    ensures TrimEnd(t + post) == t
    decreases |post|
  {
    if post == [] {
      assert t + post == t;
      TrimEndKeeps(t);
    } else {
      assert (t + post)[..|t + post| - 1] == t + post[..|post| - 1];
      TrimEndPadded(t, post[..|post| - 1]);
    }
  }

  /** `(pre + t + post).strip() == t` for whitespace `pre` and `post` around a `t` that
      starts and ends with a non-space character. */
  lemma {:induction false} StripPadded(pre: string, t: string, post: string)
    requires AllSpace(pre) && AllSpace(post)
    requires t != [] && !IsSpace(t[0]) && !IsSpace(t[|t| - 1])
    ensures Strip(pre + t + post) == t
  {
    assert pre + t + post == pre + (t + post);
    TrimStartPadded(pre, t + post);
    TrimEndPadded(t, post);
  }

  lemma {:induction false} TrimStartKeeps(s: string)
    requires s == [] || !IsSpace(s[0])
    ensures TrimStart(s) == s
  {
  }

  /** Nothing to strip at the end. */
  lemma {:induction false} TrimEndKeeps(s: string)
    requires s == [] || !IsSpace(s[|s| - 1])
    ensures TrimEnd(s) == s
  {
  }

  // ---------------------------------------------------------------------------
  // str.lower()

  function LowerChar(c: char): char {
    if 'A' <= c <= 'Z' then (c as int + 32) as char else c
  }

  /** `s.lower()` on ASCII letters. */
  function Lower(s: string): string {
    seq(|s|, k requires 0 <= k < |s| => LowerChar(s[k]))
  }

  // ---------------------------------------------------------------------------
  // `needle in hay`

  predicate StartsWith(s: string, p: string) {
    |p| <= |s| && s[..|p|] == p
  }

  predicate EndsWith(s: string, p: string) {
    |p| <= |s| && s[|s| - |p|..] == p
  }

  lemma {:induction false} StartsWithTrans(a: string, b: string, c: string)
    requires StartsWith(a, b) && StartsWith(b, c)
    ensures StartsWith(a, c)
  {
    assert a[..|b|][..|c|] == a[..|c|];
  }

  lemma {:induction false} EndsWithTrans(a: string, b: string, c: string)
    requires EndsWith(a, b) && EndsWith(b, c)
    ensures EndsWith(a, c)
  {
    assert a[|a| - |b|..][|b| - |c|..] == a[|a| - |c|..];
  }

  /** `needle` occurs in `hay` at offset `i`. */
  predicate OccursAt(hay: string, needle: string, i: int) {
    0 <= i <= |hay| - |needle| && hay[i..i + |needle|] == needle
  }

  /** Python's `needle in hay` on strings. */
  predicate Contains(hay: string, needle: string) {
    exists i :: 0 <= i <= |hay| - |needle| && OccursAt(hay, needle, i)
  }

  /** A needle holding a character the haystack lacks does not occur in it. */
  lemma {:induction false} AbsentCharNotContained(hay: string, needle: string, j: nat)
    requires j < |needle| && needle[j] !in hay
    ensures !Contains(hay, needle)
  {
    forall i | 0 <= i <= |hay| - |needle|
      ensures !OccursAt(hay, needle, i)
    {
      assert hay[i + j] != needle[j];
      assert hay[i..i + |needle|][j] == hay[i + j];
    }
  }

  lemma {:induction false} OccursShift(s: string, sep: string, k: int)
    requires s != [] && 1 <= k
    ensures OccursAt(s[1..], sep, k - 1) <==> OccursAt(s, sep, k)
  {
    if 0 <= k - 1 <= |s[1..]| - |sep| {
      assert s[1..][k - 1..k - 1 + |sep|] == s[k..k + |sep|];
    }
  }

  /** The empty string is a substring of every string, as in Python. */
  lemma {:induction false} EmptyContained(hay: string)
    ensures Contains(hay, "")
  {
    assert OccursAt(hay, "", 0);
  }

  /** The first offset at which `sep` occurs in `s`, found by scanning left to right. */
  function IndexOf(s: string, sep: string): (r: Option<nat>)
    ensures r.Some? ==> r.value + |sep| <= |s|
    decreases |s|
  {
    if StartsWith(s, sep) then Some(0)
    else if s == [] then None
    else
      match IndexOf(s[1..], sep)
      case None => None
      case Some(i) => Some(i + 1)
  }

  /** What the scan finds is an occurrence. */
  lemma {:induction false} IndexOfOccurs(s: string, sep: string)
    requires IndexOf(s, sep).Some?
    ensures OccursAt(s, sep, IndexOf(s, sep).value)
    decreases |s|
  {
    if !StartsWith(s, sep) {
      IndexOfOccurs(s[1..], sep);
      OccursShift(s, sep, IndexOf(s, sep).value);
    }
  }

  /** The scan finds the earliest occurrence. */
  lemma {:induction false} IndexOfFirst(s: string, sep: string, k: int)
    requires IndexOf(s, sep).Some? && 0 <= k < IndexOf(s, sep).value
    ensures !OccursAt(s, sep, k)
    decreases |s|
  {
    if k == 0 {
      assert !StartsWith(s, sep);
    } else {
      IndexOfFirst(s[1..], sep, k - 1);
      OccursShift(s, sep, k);
    }
  }

  /** The scan fails exactly when `sep` does not occur at all. */
  lemma {:induction false} IndexOfNone(s: string, sep: string)
    ensures IndexOf(s, sep).None? <==> !Contains(s, sep)
    decreases |s|
  {
    if IndexOf(s, sep).None? {
      assert !StartsWith(s, sep);
      forall k | 0 <= k <= |s| - |sep|
        ensures !OccursAt(s, sep, k)
      {
        if k >= 1 {
          IndexOfNone(s[1..], sep);
          OccursShift(s, sep, k);
        }
      }
    } else {
      IndexOfOccurs(s, sep);
    }
  }

  /** Where the last piece of `s.split(sep)` begins, scanning from `from`: Python's split
      scans left to right, so each piece ends at the first occurrence of `sep` after the
      previous one. */
  function PieceStart(s: string, sep: string, from: nat): (p: nat)
    requires sep != [] && from <= |s|
    ensures from <= p <= |s|
    decreases |s| - from
  {
    match IndexOf(s[from..], sep)
    case None => from
    case Some(i) => PieceStart(s, sep, from + i + |sep|)
  }

  /** `s.split(sep)[-1]`: what follows the last occurrence of `sep` found by the scan
      (all of `s` if there is none). */
  function SplitLast(s: string, sep: string): string
    requires sep != []
  {
    s[PieceStart(s, sep, 0)..]
  }

  lemma {:induction false} OccursDrop(s: string, sep: string, d: nat, k: nat)
    requires d <= |s|
    ensures OccursAt(s[d..], sep, k) <==> OccursAt(s, sep, d + k)
  {
    if 0 <= k <= |s[d..]| - |sep| {
      assert s[d..][k..k + |sep|] == s[d + k..d + k + |sep|];
    }
  }

  /** Without an occurrence of `sep` the last piece is the whole string. */
  lemma {:induction false} SplitLastWhole(s: string, sep: string)
    requires sep != [] && !Contains(s, sep)
    ensures SplitLast(s, sep) == s
  {
    assert s[0..] == s;
    IndexOfNone(s, sep);
  }

  lemma {:induction false} PieceHasNoSep(s: string, sep: string, from: nat)
    requires sep != [] && from <= |s|
    ensures !Contains(s[PieceStart(s, sep, from)..], sep)
    decreases |s| - from
  {
    IndexOfNone(s[from..], sep);
    match IndexOf(s[from..], sep)
    case None =>
    case Some(i) => PieceHasNoSep(s, sep, from + i + |sep|);
  }

  /** The last piece holds no occurrence of `sep`. */
  lemma {:induction false} SplitLastNoSep(s: string, sep: string)
    requires sep != []
    ensures !Contains(SplitLast(s, sep), sep)
  {
    PieceHasNoSep(s, sep, 0);
  }

  lemma {:induction false} PieceAfterSep(s: string, sep: string, from: nat)
    requires sep != [] && from <= |s| && PieceStart(s, sep, from) > from
    ensures OccursAt(s, sep, PieceStart(s, sep, from) - |sep|)
    decreases |s| - from
  {
    var i := IndexOf(s[from..], sep).value;
    var next := from + i + |sep|;
    if PieceStart(s, sep, next) > next {
      PieceAfterSep(s, sep, next);
    } else {
      IndexOfOccurs(s[from..], sep);
      OccursDrop(s, sep, from, i);
    }
  }

  /** When `s` holds `sep`, the last piece is preceded by an occurrence of `sep`. */
  lemma {:induction false} SplitLastAfterSep(s: string, sep: string)
    requires sep != [] && Contains(s, sep)
    ensures OccursAt(s, sep, |s| - |SplitLast(s, sep)| - |sep|)
  {
    assert s[0..] == s;
    IndexOfNone(s, sep);
    PieceAfterSep(s, sep, 0);
  }

  // ---------------------------------------------------------------------------
  // str.split(c) for a one-character separator, and its inverse c.join(parts)

  /** `c.join(parts)`. */
  function Join(parts: seq<string>, c: char): string
    requires |parts| >= 1
  {
    if |parts| == 1 then parts[0] else parts[0] + [c] + Join(parts[1..], c)
  }

  /** `s.split(c)`: one more piece than there are separators, none of them holding `c`,
      and joining the pieces with `c` gives `s` back. */
  function Split(s: string, c: char): (parts: seq<string>)
    ensures |parts| >= 1
    ensures forall k :: 0 <= k < |parts| ==> c !in parts[k]
    ensures |parts| == 1 <==> c !in s
    ensures Join(parts, c) == s
  {
    if s == [] then [[]]
    else
      var rest := Split(s[1..], c);
      assert s == [s[0]] + s[1..];
      if s[0] == c then [[]] + rest
      else
        assert c in s <==> c in s[1..];
        [[s[0]] + rest[0]] + rest[1..]
  }

  /** When `s` holds the separator, it starts with the first piece and the separator,
      and ends with the separator and the last piece. */
  lemma {:induction false} JoinEnds(parts: seq<string>, c: char)
    requires |parts| >= 2
    ensures StartsWith(Join(parts, c), parts[0] + [c])
    ensures EndsWith(Join(parts, c), [c] + parts[|parts| - 1])
  {
    if |parts| > 2 {
      JoinEnds(parts[1..], c);
    }
  }

  /** A string without the separator is a single piece. */
  lemma {:induction false} SplitNone(a: string, c: char)
    requires c !in a
    ensures Split(a, c) == [a]
    decreases |a|
  {
    if a != [] {
      SplitNone(a[1..], c);
      assert [a[0]] + a[1..] == a;
    }
  }

  /** A separator-free piece followed by the separator splits off as the first piece. */
  lemma {:induction false} SplitFirst(a: string, c: char, b: string)
    requires c !in a
    ensures Split(a + [c] + b, c) == [a] + Split(b, c)
    decreases |a|
  {
    var s := a + [c] + b;
    if a == [] {
      assert s[0] == c && s[1..] == b;
    } else {
      assert s[0] == a[0] && s[1..] == a[1..] + [c] + b;
      SplitFirst(a[1..], c, b);
      assert [a[0]] + a[1..] == a;
    }
  }

  // ---------------------------------------------------------------------------
  // Decimal numbers: int(s) and str(n)

  function DigitValue(c: char): nat
    requires IsDigit(c)
  {
    c as int - '0' as int
  }

  function DigitChar(n: nat): (c: char)
    requires n < 10
    ensures IsDigit(c) && DigitValue(c) == n
  {
    ('0' as int + n) as char
  }

  /** The value of a string of decimal digits (leading zeros allowed, as `int` allows them). */
  function DigitsValue(s: string): nat
    requires AllDigits(s)
  {
    if s == [] then 0 else DigitsValue(s[..|s| - 1]) * 10 + DigitValue(s[|s| - 1])
  }

  /** `str(n)` for a natural number: the shortest digit string. */
  function NatToString(n: nat): (r: string)
    ensures r != [] && AllDigits(r)
    ensures |r| > 1 ==> r[0] != '0'
  {
    if n < 10 then [DigitChar(n)] else NatToString(n / 10) + [DigitChar(n % 10)]
  }

  /** `str(n)` for any int. */
  function IntToString(n: int): string {
    if n < 0 then "-" + NatToString(-n) else NatToString(n)
  }

  /** `int(s)` on an ASCII literal: an optional sign and at least one digit; anything else raises. */
  function ParseInt(s: string): Option<int> {
    if s != [] && (s[0] == '+' || s[0] == '-') then
      if |s| > 1 && AllDigits(s[1..]) then
        var v: int := DigitsValue(s[1..]);
        Some(if s[0] == '-' then -v else v)
      else None
    else if s != [] && AllDigits(s) then Some(DigitsValue(s))
    else None
  }

  lemma {:induction false} NatToStringRoundTrip(n: nat)
    ensures DigitsValue(NatToString(n)) == n
    decreases n
  {
    if n >= 10 {
      NatToStringRoundTrip(n / 10);
      var p := NatToString(n / 10);
      assert (p + [DigitChar(n % 10)])[..|p|] == p;
    }
  }

  /** `str(n)` neither starts nor ends with whitespace. */
  lemma {:induction false} IntToStringEnds(n: int)
    ensures var s := IntToString(n);
            s != [] && !IsSpace(s[0]) && !IsSpace(s[|s| - 1])
  {
    var s := IntToString(n);
    if n < 0 {
      var d := NatToString(-n);
      assert s == "-" + d;
      assert s[|s| - 1] == d[|d| - 1];
    }
  }

  /** `int(str(n)) == n`. */
  lemma {:induction false} IntToStringRoundTrip(n: int)
    ensures ParseInt(IntToString(n)) == Some(n)
  {
    if n < 0 {
      var d := NatToString(-n);
      NatToStringRoundTrip(-n);
      assert IntToString(n) == "-" + d;
      assert ("-" + d)[1..] == d;
    } else {
      var d := NatToString(n);
      NatToStringRoundTrip(n);
      assert IsDigit(d[0]);
    }
  }

  /** `int` raises on a string holding a character that is neither a digit nor a sign. */
  lemma {:induction false} ParseIntRejects(s: string, k: nat)
    requires k < |s| && !IsDigit(s[k]) && s[k] != '+' && s[k] != '-'
    ensures ParseInt(s) == None
  {
    if s[0] == '+' || s[0] == '-' {
      assert s[1..][k - 1] == s[k];
    }
  }
}
