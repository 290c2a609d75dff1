/** `_determine_result`: the outcome of a match from the home side's point of view, computed
    from two goal values of whatever type the data carried. */
module Classifier {
  import opened Wrappers
  import opened Text
  import opened JsonValue

  const Win := "胜"
  const Loss := "负"
  const Draw := "平"

  /** The whitespace `int()` skips around a literal: space and \t \n \v \f \r. Unlike
      `str.strip`, it does not skip the separators 0x1C-0x1F. */
  predicate IsIntSpace(c: char) {
    c == ' ' || ('\t' <= c <= '\r')
  }

  predicate AllIntSpace(s: string) {
    forall k :: 0 <= k < |s| ==> IsIntSpace(s[k])
  }

  /** The literal `int()` reads: `s` without its leading and trailing `int` whitespace. */
  function IntStrip(s: string): (r: string)
    ensures |r| <= |s|
    decreases |s|
  {
    if s != [] && IsIntSpace(s[0]) then IntStrip(s[1..])
    else if s != [] && IsIntSpace(s[|s| - 1]) then IntStrip(s[..|s| - 1])
    else s
  }

  /** `int(x) if x else 0`: a falsy value counts as 0; `int(True)` is 1, an int is itself,
      a string must hold an optional sign and digits, with `int` whitespace allowed around
      them; `int` of a non-empty list or dict raises TypeError, which is `None` here. */
  function Coerce(x: Json): (r: Option<int>)
    ensures !Truthy(x) ==> r == Some(0)
    ensures x.JNum? ==> r == Some(x.n)
    ensures (x.JArr? || x.JObj?) && Truthy(x) ==> r == None
  {
    if !Truthy(x) then Some(0)
    else
      match x
      case JBool(_) => Some(1)
      case JNum(n) => Some(n)
      case JStr(s) => ParseInt(IntStrip(s))
      case _ => None
  }

  /** `int` whitespace around a literal that neither starts nor ends with it is all that
      `IntStrip` removes. */
  lemma {:induction false} IntStripPadded(pre: string, t: string, post: string)
    requires AllIntSpace(pre) && AllIntSpace(post)
    requires t != [] && !IsIntSpace(t[0]) && !IsIntSpace(t[|t| - 1])
    ensures IntStrip(pre + t + post) == t
    decreases |pre| + |post|
  {
    var s := pre + t + post;
    if pre != [] {
      assert s[0] == pre[0];
      assert s[1..] == pre[1..] + t + post;
      IntStripPadded(pre[1..], t, post);
    } else if post != [] {
      assert s == t + post;
      assert s[0] == t[0] && s[|s| - 1] == post[|post| - 1];
      assert s[..|s| - 1] == [] + t + post[..|post| - 1];
      IntStripPadded([], t, post[..|post| - 1]);
    } else {
      assert s == t;
    }
  }

  /** A character that is not `int` whitespace survives `IntStrip`, at some position. */
  lemma {:induction false} IntStripKeepsChar(s: string, k: nat) returns (j: nat)
    requires k < |s| && !IsIntSpace(s[k])
    ensures j < |IntStrip(s)| && IntStrip(s)[j] == s[k]
    decreases |s|
  {
    if IsIntSpace(s[0]) {
      assert s[1..][k - 1] == s[k];
      j := IntStripKeepsChar(s[1..], k - 1);
    } else if IsIntSpace(s[|s| - 1]) {
      assert s[..|s| - 1][k] == s[k];
      j := IntStripKeepsChar(s[..|s| - 1], k);
    } else {
      j := k;
    }
  }

  /** The label for a home score against an away score. */
  function Compare(home: int, away: int): (r: string)
    ensures r == Win <==> home > away
    ensures r == Loss <==> home < away
    ensures r == Draw <==> home == away
  {
    if home > away then Win else if home < away then Loss else Draw
  }

  /** `_determine_result(home_goals, away_goals)`: the comparison of the coerced values, or
      `""` when either cannot be coerced; it never raises. */
  function DetermineResult(home: Json, away: Json): (r: string)
    ensures r == "" <==> Coerce(home).None? || Coerce(away).None?
    ensures r in {Win, Loss, Draw, ""}
  {
    match (Coerce(home), Coerce(away))
    case (Some(h), Some(a)) => Compare(h, a)
    case _ => ""
  }

  /** For integer goals the label is exactly the order of the two numbers. */
  lemma {:induction false} IntegerGoals(h: int, a: int)
    ensures DetermineResult(JNum(h), JNum(a)) == Win <==> h > a
    ensures DetermineResult(JNum(h), JNum(a)) == Loss <==> h < a
    ensures DetermineResult(JNum(h), JNum(a)) == Draw <==> h == a
  {
    assert Coerce(JNum(h)) == Some(h) && Coerce(JNum(a)) == Some(a);
  }

  /** Swapping the two sides swaps a win and a loss and keeps a draw or a failure. */
  lemma {:induction false} SwapSides(h: Json, a: Json)
    ensures DetermineResult(a, h) == (if DetermineResult(h, a) == Win then Loss
                                      else if DetermineResult(h, a) == Loss then Win
                                      else DetermineResult(h, a))
  {
    match (Coerce(h), Coerce(a))
    case (Some(x), Some(y)) =>
      assert DetermineResult(h, a) == Compare(x, y);
      assert DetermineResult(a, h) == Compare(y, x);
    case _ =>
  }

  /** A goal count written as its decimal string gives the same label as the number. */
  lemma {:induction false} DecimalStrings(h: int, a: int)
    ensures DetermineResult(JStr(IntToString(h)), JStr(IntToString(a))) == DetermineResult(JNum(h), JNum(a))
  {
    StringCoerces(h);
    StringCoerces(a);
  }

  /** `int` accepts the decimal form of any integer with `int` whitespace on either side. */
  lemma {:induction false} PaddedDecimal(pre: string, n: int, post: string)
    requires AllIntSpace(pre) && AllIntSpace(post)
    ensures Coerce(JStr(pre + IntToString(n) + post)) == Some(n)
  {
    IntToStringRoundTrip(n);
    IntToStringEnds(n);
    IntStripPadded(pre, IntToString(n), post);
  }

  lemma {:induction false} StringCoerces(n: int)
    ensures Coerce(JStr(IntToString(n))) == Some(n)
  {
    var s := IntToString(n);
    IntToStringRoundTrip(n);
    IntToStringEnds(n);
    assert [] + s + [] == s;
    IntStripPadded([], s, []);
  }

  /** A missing or empty goal value counts as no goals at all. */
  lemma {:induction false} FalsyIsZero(h: Json, a: Json)
    requires !Truthy(h)
    ensures DetermineResult(h, a) == DetermineResult(JNum(0), a)
  {
  }

  /** A goal string holding a letter (or any character besides digits, signs, the digit
      separator `_` and `int` whitespace) gives the empty label. */
  lemma {:induction false} NonNumericString(s: string, k: nat, a: Json)
    requires k < |s| && !IsDigit(s[k]) && !IsIntSpace(s[k]) && s[k] != '+' && s[k] != '-'
    requires s[k] != '_'
    ensures DetermineResult(JStr(s), a) == ""
    ensures DetermineResult(a, JStr(s)) == ""
  {
    var j := IntStripKeepsChar(s, k);
    ParseIntRejects(IntStrip(s), j);
  }

  /** `str.strip` skips the file separator 0x1C, but `int` does not: a goal string that
      starts with one cannot be read, and the label is empty. */
  lemma SeparatorNotSkipped()
    ensures Strip([28 as char, '5']) == "5"
    ensures Coerce(JStr([28 as char, '5'])) == None
    ensures DetermineResult(JStr([28 as char, '5']), JNum(0)) == ""
  {
    var s := [28 as char, '5'];
    assert s == [28 as char] + "5" + [];
    StripPadded([28 as char], "5", []);
    assert IntStrip(s) == s;
    ParseIntRejects(s, 0);
  }

  /** The labels of integer, falsy and list-valued goals. */
  lemma ResultExamples()
    ensures DetermineResult(JNum(3), JNum(0)) == Win
    ensures DetermineResult(JStr(""), JNum(0)) == Draw
    ensures DetermineResult(JArr([JNum(1)]), JNum(0)) == ""
  {
  }

  /** Goal strings are read as numbers, surrounding whitespace and all. */
  lemma PaddedStringExample()
    ensures Coerce(JStr(" 1 ")) == Some(1)
  {
    StripPaddedOne();
    ParseOne();
  }

  lemma StripPaddedOne()
    ensures IntStrip(" 1 ") == "1"
  {
    assert " 1 " == " " + "1" + " ";
    IntStripPadded(" ", "1", " ");
  }

  lemma ParseOne()
    ensures ParseInt("1") == Some(1)
  {
    assert "1"[..0] == [];
  }

  lemma PlainStringExample()
    ensures Coerce(JStr("2")) == Some(2)
  {
    StringCoerces(2);
    assert IntToString(2) == "2";
  }

  /** A missing home score loses to a numeric string; a padded 1 draws with `True`. */
  lemma StringResultExamples()
    ensures DetermineResult(JNull, JStr("2")) == Loss
    ensures DetermineResult(JStr(" 1 "), JBool(true)) == Draw
  {
    PaddedStringExample();
    PlainStringExample();
  }
}
