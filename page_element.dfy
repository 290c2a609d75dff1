/** `_parse_match_element`: one event element of the rendered page turned into a match
    record, from its link and its visible text. */
module PageElement {
  import opened Wrappers
  import opened Text
  import opened JsonValue
  import opened Classifier
  import opened Records
  import opened ApiEvent

  /** What the browser reports for an element: its `href` attribute (`None` when it has
      none) and its text, or `Detached` when reading either raised. */
  datatype Element = Element(href: Option<string>, text: string) | Detached

  const PathIdMarker := "/id:"

  // ---------------------------------------------------------------------------
  // The match id in the link

  /** The id after the last `#id:` of the link, else after the last `/id:`, else `''`. */
  function MatchIdOf(href: string): (id: string)
    ensures |id| <= |href| && id == href[|href| - |id|..]
    ensures Contains(href, IdMarker) ==>
              OccursAt(href, IdMarker, |href| - |id| - |IdMarker|) && !Contains(id, IdMarker)
    ensures !Contains(href, IdMarker) && Contains(href, PathIdMarker) ==>
              OccursAt(href, PathIdMarker, |href| - |id| - |PathIdMarker|) && !Contains(id, PathIdMarker)
    ensures !Contains(href, IdMarker) && !Contains(href, PathIdMarker) ==> id == ""
  {
    if Contains(href, IdMarker) then
      SplitLastAfterSep(href, IdMarker);
      SplitLastNoSep(href, IdMarker);
      SplitLast(href, IdMarker)
    else if Contains(href, PathIdMarker) then
      SplitLastAfterSep(href, PathIdMarker);
      SplitLastNoSep(href, PathIdMarker);
      SplitLast(href, PathIdMarker)
    else ""
  }

  /** The last piece after `sep` is `d` when `s` ends with `sep` and `d`, and the first
      character of `sep` occurs neither later in `sep` nor in `d`. */
  lemma {:induction false} SplitLastOfSuffix(p: string, sep: string, d: string)
    requires sep != [] && sep[0] !in sep[1..] && sep[0] !in d
    ensures SplitLast(p + sep + d, sep) == d
  {
    var s := p + sep + d;
    assert OccursAt(s, sep, |p|) by { assert s[|p|..|p| + |sep|] == sep; }
    SplitLastAfterSep(s, sep);
    SplitLastNoSep(s, sep);
    var r := SplitLast(s, sep);
    var q := |s| - |r| - |sep|;
    assert s[q] == sep[0] by { assert s[q..q + |sep|][0] == s[q]; }
    assert q <= |p|;
    if q < |p| {
      assert q + |sep| <= |p|;
      assert OccursAt(r, sep, |p| - q - |sep|) by {
        assert r == s[q + |sep|..];
        assert r[|p| - q - |sep|..|p| - q] == s[|p|..|p| + |sep|];
      }
    }
  }

  /** The permalink the API path builds for an integer id reads back, through the page
      parser's id extraction, as that id. */
  lemma {:induction false} PermalinkIdReadsBack(slug: string, n: int)
    ensures MatchIdOf(SiteRoot + slug + IdMarker + IntToString(n)) == IntToString(n)
    ensures ParseInt(MatchIdOf(SiteRoot + slug + IdMarker + IntToString(n))) == Some(n)
  {
    var d := IntToString(n);
    assert forall k :: 0 <= k < |d| ==> d[k] == '-' || IsDigit(d[k]) by {
      if n < 0 {
        forall k | 0 <= k < |d| ensures d[k] == '-' || IsDigit(d[k]) {
          if k > 0 { assert d[k] == NatToString(-n)[k - 1]; }
        }
      }
    }
    assert IdMarker[0] !in d;
    assert IdMarker[0] !in IdMarker[1..];
    var p := SiteRoot + slug;
    assert OccursAt(p + IdMarker + d, IdMarker, |p|) by {
      assert (p + IdMarker + d)[|p|..|p| + |IdMarker|] == IdMarker;
    }
    assert SiteRoot + slug + IdMarker + d == p + IdMarker + d;
    SplitLastOfSuffix(p, IdMarker, d);
    IntToStringRoundTrip(n);
  }

  // ---------------------------------------------------------------------------
  // The score pattern (\d+)\s*[-:]\s*(\d+)

  predicate IsScoreSep(c: char) {
    c == '-' || c == ':'
  }

  /** Every character of `s[a..b]` is a digit. */
  predicate DigitsIn(s: string, a: nat, b: nat)
    requires a <= b <= |s|
  {
    forall k :: a <= k < b ==> IsDigit(s[k])
  }

  /** Every character of `s[a..b]` is whitespace. */
  predicate SpacesIn(s: string, a: nat, b: nat)
    requires a <= b <= |s|
  {
    forall k :: a <= k < b ==> IsSpace(s[k])
  }

  /** The length of the run of digits starting at `i`. */
  function DigitRun(s: string, i: nat): (n: nat)
    requires i <= |s|
    ensures i + n <= |s|
    ensures i + n == |s| || !IsDigit(s[i + n])
    decreases |s| - i
  {
    if i < |s| && IsDigit(s[i]) then 1 + DigitRun(s, i + 1) else 0
  }

  /** The run holds only digits. */
  lemma {:induction false} DigitRunDigits(s: string, i: nat)
    requires i <= |s|
    ensures DigitsIn(s, i, i + DigitRun(s, i))
    decreases |s| - i
  {
    if i < |s| && IsDigit(s[i]) {
      DigitRunDigits(s, i + 1);
    }
  }

  /** The length of the run of whitespace starting at `i`. */
  function SpaceRun(s: string, i: nat): (n: nat)
    requires i <= |s|
    ensures i + n <= |s|
    ensures i + n == |s| || !IsSpace(s[i + n])
    decreases |s| - i
  {
    if i < |s| && IsSpace(s[i]) then 1 + SpaceRun(s, i + 1) else 0
  }

  /** The run holds only whitespace. */
  lemma {:induction false} SpaceRunSpaces(s: string, i: nat)
    requires i <= |s|
    ensures SpacesIn(s, i, i + SpaceRun(s, i))
    decreases |s| - i
  {
    if i < |s| && IsSpace(s[i]) {
      SpaceRunSpaces(s, i + 1);
    }
  }

  /** The pattern matches at `i`: `\d+` and `\s*` take as much as they can, then come the
      separator, more whitespace and a non-empty second number. */
  predicate ScoreMatches(s: string, i: nat)
    requires i <= |s|
  {
    var p := i + DigitRun(s, i);
    var q := p + SpaceRun(s, p);
    p > i && q < |s| && IsScoreSep(s[q]) && DigitRun(s, q + 1 + SpaceRun(s, q + 1)) > 0
  }

  /** The two groups of the pattern matched at `i`, read as numbers. */
  function ScoreAt(s: string, i: nat): Option<(nat, nat)>
    requires i <= |s|
  {
    if !ScoreMatches(s, i) then None
    else
      var p := i + DigitRun(s, i);
      var q := p + SpaceRun(s, p);
      var k := q + 1 + SpaceRun(s, q + 1);
      var e := k + DigitRun(s, k);
      DigitRunDigits(s, i);
      DigitRunDigits(s, k);
      assert AllDigits(s[i..p]) && AllDigits(s[k..e]);
      Some((DigitsValue(s[i..p]), DigitsValue(s[k..e])))
  }

  /** A match of the pattern at `i`: digits `s[i..p]`, whitespace `s[p..q]`, the separator
      `s[q]`, whitespace `s[q+1..k]` and digits `s[k..e]`. */
  predicate ScoreShape(s: string, i: nat, p: nat, q: nat, k: nat, e: nat) {
    i < p <= q < k < e <= |s|
    && DigitsIn(s, i, p) && SpacesIn(s, p, q) && IsScoreSep(s[q])
    && SpacesIn(s, q + 1, k) && DigitsIn(s, k, e)
  }

  lemma {:induction false} DigitRunCovers(s: string, i: nat, p: nat)
    requires i <= p <= |s| && DigitsIn(s, i, p)
    ensures i + DigitRun(s, i) >= p
    decreases p - i
  {
    if i < p {
      DigitRunCovers(s, i + 1, p);
    }
  }

  lemma {:induction false} SpaceRunCovers(s: string, i: nat, p: nat)
    requires i <= p <= |s| && SpacesIn(s, i, p)
    ensures i + SpaceRun(s, i) >= p
    decreases p - i
  {
    if i < p {
      SpaceRunCovers(s, i + 1, p);
    }
  }

  /** Where the pattern matches by `ScoreMatches`, the runs it measured have the shape of
      a match. */
  lemma {:induction false} ScoreAtHasShape(s: string, i: nat) returns (p: nat, q: nat, k: nat, e: nat)
    requires i <= |s| && ScoreMatches(s, i)
    ensures p == i + DigitRun(s, i) && q == p + SpaceRun(s, p)
    ensures k == q + 1 + SpaceRun(s, q + 1) && e == k + DigitRun(s, k)
    ensures ScoreShape(s, i, p, q, k, e)
  {
    p := i + DigitRun(s, i);
    q := p + SpaceRun(s, p);
    k := q + 1 + SpaceRun(s, q + 1);
    e := k + DigitRun(s, k);
    RunsOrdered(s, i, p, q, k, e);
    DigitRunDigits(s, i);
    SpaceRunSpaces(s, p);
    SpaceRunSpaces(s, q + 1);
    DigitRunDigits(s, k);
    ShapeOfRuns(s, i, p, q, k, e);
  }

  lemma {:induction false} RunsOrdered(s: string, i: nat, p: nat, q: nat, k: nat, e: nat)
    requires i <= |s| && ScoreMatches(s, i)
    requires p == i + DigitRun(s, i) && q == p + SpaceRun(s, p)
    requires k == q + 1 + SpaceRun(s, q + 1) && e == k + DigitRun(s, k)
    ensures i < p <= q < k < e <= |s| && IsScoreSep(s[q])
  {
  }

  lemma {:induction false} ShapeOfRuns(s: string, i: nat, p: nat, q: nat, k: nat, e: nat)
    requires i < p <= q < k < e <= |s| && IsScoreSep(s[q])
    requires DigitsIn(s, i, p) && SpacesIn(s, p, q) && SpacesIn(s, q + 1, k) && DigitsIn(s, k, e)
    ensures ScoreShape(s, i, p, q, k, e)
  {
  }

  /** Every match of the pattern at `i` has the first group, separator and start of the
      second group `ScoreAt` measures, and a second group no longer than its greedy one:
      the regex engine returns the same two numbers as `ScoreAt`. */
  lemma {:induction false} ScoreAtIsTheMatch(s: string, i: nat)
    requires i <= |s|
    ensures forall p: nat, q: nat, k: nat, e: nat | ScoreShape(s, i, p, q, k, e) ::
              ScoreMatches(s, i)
              && p == i + DigitRun(s, i) && q == p + SpaceRun(s, p)
              && k == q + 1 + SpaceRun(s, q + 1) && e <= k + DigitRun(s, k)
  {
    forall p: nat, q: nat, k: nat, e: nat | ScoreShape(s, i, p, q, k, e)
      ensures ScoreMatches(s, i)
      ensures p == i + DigitRun(s, i) && q == p + SpaceRun(s, p)
      ensures k == q + 1 + SpaceRun(s, q + 1) && e <= k + DigitRun(s, k)
    {
      ShapeForced(s, i, p, q, k, e);
    }
  }

  /** In a match, the first group ends where the run of digits ends. */
  lemma {:induction false} FirstGroupForced(s: string, i: nat, p: nat, q: nat, k: nat, e: nat)
    requires ScoreShape(s, i, p, q, k, e)
    ensures p == i + DigitRun(s, i)
  {
    DigitRunCovers(s, i, p);
    DigitRunDigits(s, i);
    assert !IsDigit(s[p]) by {
      if p < q {
        assert IsSpace(s[p]);
      }
    }
  }

  /** In a match, the separator follows the whitespace after the first group. */
  lemma {:induction false} SeparatorForced(s: string, i: nat, p: nat, q: nat, k: nat, e: nat)
    requires ScoreShape(s, i, p, q, k, e)
    ensures q == p + SpaceRun(s, p)
  {
    SpaceRunCovers(s, p, q);
    SpaceRunSpaces(s, p);
  }

  /** In a match, the second group starts after all the whitespace following the separator. */
  lemma {:induction false} SecondGroupForced(s: string, i: nat, p: nat, q: nat, k: nat, e: nat)
    requires ScoreShape(s, i, p, q, k, e)
    ensures k == q + 1 + SpaceRun(s, q + 1) && e <= k + DigitRun(s, k)
  {
    SpaceRunCovers(s, q + 1, k);
    SpaceRunSpaces(s, q + 1);
    DigitRunCovers(s, k, e);
  }

  lemma {:induction false} ShapeForced(s: string, i: nat, p: nat, q: nat, k: nat, e: nat)
    requires ScoreShape(s, i, p, q, k, e)
    ensures p == i + DigitRun(s, i) && q == p + SpaceRun(s, p)
    ensures k == q + 1 + SpaceRun(s, q + 1) && e <= k + DigitRun(s, k)
    ensures ScoreMatches(s, i)
  {
    FirstGroupForced(s, i, p, q, k, e);
    SeparatorForced(s, i, p, q, k, e);
    SecondGroupForced(s, i, p, q, k, e);
    ScoreAtFrom(s, i, p, q, k);
  }

  /** `ScoreAt` succeeds once its runs end at a separator and a non-empty second number. */
  lemma {:induction false} ScoreAtFrom(s: string, i: nat, p: nat, q: nat, k: nat)
    requires i <= |s| && i < p == i + DigitRun(s, i) && q == p + SpaceRun(s, p)
    requires q < |s| && IsScoreSep(s[q])
    requires k == q + 1 + SpaceRun(s, q + 1) && DigitRun(s, k) > 0
    ensures ScoreMatches(s, i)
  {
  }

  /** `re.search`: the leftmost position where the pattern matches. */
  function ScoreStart(s: string, i: nat): (r: Option<nat>)
    requires i <= |s|
    ensures r.Some? ==> i <= r.value <= |s|
    decreases |s| - i
  {
    if ScoreMatches(s, i) then Some(i)
    else if i == |s| then None
    else ScoreStart(s, i + 1)
  }

  /** The search stops at a match, and no position before it matches; when it finds
      nothing, no position from `i` on matches. */
  lemma {:induction false} ScoreStartLeftmost(s: string, i: nat)
    requires i <= |s|
    ensures ScoreStart(s, i).Some? ==> ScoreMatches(s, ScoreStart(s, i).value)
    ensures ScoreStart(s, i).Some? ==> forall j :: i <= j < ScoreStart(s, i).value ==> !ScoreMatches(s, j)
    ensures ScoreStart(s, i).None? ==> forall j :: i <= j <= |s| ==> !ScoreMatches(s, j)
    decreases |s| - i
  {
    if !ScoreMatches(s, i) && i < |s| {
      ScoreStartLeftmost(s, i + 1);
    }
  }

  /** The two numbers of the first score in `s`, if there is one. */
  function SearchScore(s: string): Option<(nat, nat)> {
    match ScoreStart(s, 0)
    case Some(j) => ScoreAt(s, j)
    case None => None
  }

  // ---------------------------------------------------------------------------
  // The element

  /** `elem.get_attribute('href') or ''`. */
  function HrefOf(href: Option<string>): string {
    match href
    case Some(h) => h
    case None => ""
  }

  /** The team names of an element's text: the text is stripped, split at newlines, and
      the first and last lines, stripped again, are the home and away teams; `None` when
      the stripped text is empty or a single line. The home team opens the stripped text
      and the away team closes it, neither is empty and neither spans a line break. */
  function TeamsOf(rawText: string): (r: Option<(string, string)>)
    ensures r.Some? <==> '\n' in Strip(rawText)
    ensures r.Some? ==> var text, home, away := Strip(rawText), r.value.0, r.value.1;
                        home != [] && '\n' !in home && StartsWith(text, home)
                        && away != [] && '\n' !in away && EndsWith(text, away)
  {
    var text := Strip(rawText);
    if text == [] then None
    else
      var lines := Split(text, '\n');
      if |lines| < 2 then None
      else
        FirstLineName(text);
        LastLineName(text);
        Some((Strip(lines[0]), Strip(lines[|lines| - 1])))
  }

  /** The goals of the first score in the text, 0 and 0 when there is none. */
  function GoalsOf(text: string): (nat, nat) {
    match SearchScore(text)
    case Some(g) => g
    case None => (0, 0)
  }

  /** `_parse_match_element(elem, date_str, weekday)`. */
  function ParseMatchElement(elem: Element, date: string, weekday: string): (r: Option<MatchRecord>)
    ensures r.Some? <==> elem.Element? && '\n' in Strip(elem.text)
    ensures r.Some? ==> Consistent(r.value) && OnDay(r.value, date, weekday) && r.value.time == NoTime
    ensures r.Some? ==> r.value.matchUrl == HrefOf(elem.href)
                        && r.value.matchId == JStr(MatchIdOf(HrefOf(elem.href)))
    ensures r.Some? ==> r.value.homeTeam == JStr(TeamsOf(elem.text).value.0)
                        && r.value.awayTeam == JStr(TeamsOf(elem.text).value.1)
    ensures r.Some? ==> r.value.homeGoals == JNum(GoalsOf(Strip(elem.text)).0)
                        && r.value.awayGoals == JNum(GoalsOf(Strip(elem.text)).1)
    ensures r.Some? ==> r.value.competition == JStr("") && r.value.season == JStr("")
                        && r.value.round == JStr("")
                        && r.value.homeTeamId == JStr("") && r.value.awayTeamId == JStr("")
                        && r.value.homeHt == JStr("") && r.value.awayHt == JStr("")
  {
    match elem
    case Detached => None
    case Element(href, rawText) =>
      var teams :- TeamsOf(rawText);
      var h := HrefOf(href);
      var goals := GoalsOf(Strip(rawText));
      Some(MatchRecord(
        JStr(MatchIdOf(h)), date, NoTime, weekday, JStr(""), JStr(""), JStr(""), "", "",
        JStr(teams.0), JStr(teams.1), JStr(""), JStr(""),
        JNum(goals.0), JNum(goals.1), JStr(""), JStr(""), JNum(goals.0), JNum(goals.1),
        DetermineResult(JNum(goals.0), JNum(goals.1)), "finished", h))
  }

  /** A text holding a newline splits into at least two lines; it opens with the first
      line and a newline, and closes with a newline and the last line. */
  lemma {:induction false} SplitEnds(text: string)
    requires '\n' in text
    ensures var lines := Split(text, '\n');
            |lines| >= 2 && '\n' !in lines[0] && '\n' !in lines[|lines| - 1]
            && StartsWith(text, lines[0] + ['\n'])
            && EndsWith(text, ['\n'] + lines[|lines| - 1])
  {
    JoinEnds(Split(text, '\n'), '\n');
  }

  lemma {:induction false} FirstLineName(text: string)
    requires text != [] && !IsSpace(text[0]) && '\n' in text
    ensures var home := Strip(Split(text, '\n')[0]);
            home != [] && '\n' !in home && StartsWith(text, home)
  {
    SplitEnds(text);
    OpeningLine(text, Split(text, '\n')[0]);
  }

  /** A line that opens a text whose first character is not whitespace keeps that
      character when stripped. */
  lemma {:induction false} OpeningLine(text: string, first: string)
    requires text != [] && !IsSpace(text[0])
    requires StartsWith(text, first + ['\n']) && '\n' !in first
    ensures var home := Strip(first);
            home != [] && '\n' !in home && StartsWith(text, home)
  {
    assert first != [] && first[0] == text[0] by {
      assert (first + ['\n'])[0] == text[0];
    }
    TrimStartKeeps(first);
    var home := TrimEnd(first);
    assert home != [] && home[0] == first[0];
    assert Strip(first) == home;
    assert forall c :: c in home ==> c in first;
    assert StartsWith(first + ['\n'], first);
    StartsWithTrans(text, first + ['\n'], first);
    StartsWithTrans(text, first, home);
  }

  lemma {:induction false} LastLineName(text: string)
    requires text != [] && !IsSpace(text[|text| - 1]) && '\n' in text
    ensures var lines := Split(text, '\n');
            var away := Strip(lines[|lines| - 1]);
            away != [] && '\n' !in away && EndsWith(text, away)
  {
    SplitEnds(text);
    var lines := Split(text, '\n');
    ClosingLine(text, lines[|lines| - 1]);
  }

  /** A line that closes a text whose last character is not whitespace keeps that
      character when stripped. */
  lemma {:induction false} ClosingLine(text: string, last: string)
    requires text != [] && !IsSpace(text[|text| - 1])
    requires EndsWith(text, ['\n'] + last) && '\n' !in last
    ensures var away := Strip(last);
            away != [] && '\n' !in away && EndsWith(text, away)
  {
    var tail := text[|text| - |last| - 1..];
    assert last != [] && last[|last| - 1] == text[|text| - 1] by {
      assert tail[|tail| - 1] == text[|text| - 1];
    }
    var away := TrimStart(last);
    assert away != [] && away[|away| - 1] == last[|last| - 1];
    TrimEndKeeps(away);
    assert Strip(last) == away;
    assert forall c :: c in away ==> c in last;
    assert EndsWith(['\n'] + last, last);
    EndsWithTrans(text, ['\n'] + last, last);
    EndsWithTrans(text, last, away);
  }

  /** Text without a digit holds no score, so both goal counts stay 0. */
  lemma {:induction false} NoDigitsNoScore(s: string)
    requires forall k :: 0 <= k < |s| ==> !IsDigit(s[k])
    ensures SearchScore(s) == None
  {
    forall j | 0 <= j <= |s| ensures !ScoreMatches(s, j) {
      assert DigitRun(s, j) == 0;
    }
  }

  /** `re.search` reports the first position from `i` on where the pattern matches. */
  lemma {:induction false} ScoreStartAt(s: string, i: nat, j: nat)
    requires i <= j <= |s| && ScoreMatches(s, j)
    requires forall k :: i <= k < j ==> !ScoreMatches(s, k)
    ensures ScoreStart(s, i) == Some(j)
    decreases j - i
  {
    if i < j {
      ScoreStartAt(s, i + 1, j);
    }
  }

  const SampleCell := "Bayern\n3 - 0\nDortmund"

  lemma SampleCellPrefix()
    ensures forall k :: 0 <= k < 7 ==> !ScoreMatches(SampleCell, k)
  {
    forall k | 0 <= k < 7 ensures !ScoreMatches(SampleCell, k) {
      assert !IsDigit(SampleCell[k]);
      assert DigitRun(SampleCell, k) == 0;
    }
  }

  lemma SampleCellScore()
    ensures ScoreAt(SampleCell, 7) == Some((3, 0))
  {
    var pre, post := "Bayern\n", "\nDortmund";
    assert SampleCell == pre + "3 - 0" + post;
    SpacedScoreIn(pre, '3', '-', '0', post);
  }

  /** A one-digit score with single spaces, followed by a non-digit, reads as its digits. */
  lemma {:induction false} SpacedScoreIn(pre: string, h: char, sep: char, a: char, post: string)
    requires IsDigit(h) && IsScoreSep(sep) && IsDigit(a) && (post == [] || !IsDigit(post[0]))
    ensures ScoreAt(pre + [h, ' ', sep, ' ', a] + post, |pre|) == Some((DigitValue(h), DigitValue(a)))
  {
    var s := pre + [h, ' ', sep, ' ', a] + post;
    var i := |pre|;
    assert s[i] == h && s[i + 1] == ' ' && s[i + 2] == sep && s[i + 3] == ' ' && s[i + 4] == a;
    assert i + 5 < |s| ==> s[i + 5] == post[0];
    SpacedScore(s, i);
  }

  /** One digit, a space, a separator, a space and one digit read as the two digits. */
  lemma {:induction false} SpacedScore(s: string, i: nat)
    requires i + 5 <= |s| && IsDigit(s[i]) && s[i + 1] == ' ' && IsScoreSep(s[i + 2])
    requires s[i + 3] == ' ' && IsDigit(s[i + 4]) && (i + 5 == |s| || !IsDigit(s[i + 5]))
    ensures ScoreAt(s, i) == Some((DigitValue(s[i]), DigitValue(s[i + 4])))
  {
    assert DigitRun(s, i + 1) == 0;
    assert DigitRun(s, i) == 1;
    assert SpaceRun(s, i + 2) == 0;
    assert SpaceRun(s, i + 1) == 1;
    assert SpaceRun(s, i + 4) == 0;
    assert SpaceRun(s, i + 3) == 1;
    assert DigitRun(s, i + 5) == 0;
    assert DigitRun(s, i + 4) == 1;
    assert ScoreMatches(s, i);
    OneDigitValue(s, i);
    OneDigitValue(s, i + 4);
  }

  /** A single digit, read as a digit string, is its own value. */
  lemma {:induction false} OneDigitValue(s: string, i: nat)
    requires i < |s| && IsDigit(s[i])
    ensures AllDigits(s[i..i + 1]) && DigitsValue(s[i..i + 1]) == DigitValue(s[i])
  {
    var d := s[i..i + 1];
    assert d == [s[i]] && d[..0] == [];
  }

  /** The leftmost score of a three-line cell: the digits either side of ` - `. */
  lemma ScoreExample()
    ensures GoalsOf(SampleCell) == (3, 0)
    ensures DetermineResult(JNum(3), JNum(0)) == Win
  {
    SampleCellPrefix();
    SampleCellScore();
    ScoreStartAt(SampleCell, 0, 7);
  }

  /** The team lines of the sample cell, which neither starts nor ends with whitespace. */
  lemma SampleCellTeams()
    ensures TeamsOf(SampleCell) == Some(("Bayern", "Dortmund"))
  {
    SampleCellStripped();
    SampleCellLines();
    SampleNamesStripped();
  }

  lemma SampleCellStripped()
    ensures Strip(SampleCell) == SampleCell
  {
    TrimStartKeeps(SampleCell);
    TrimEndKeeps(SampleCell);
  }

  lemma SampleCellLines()
    ensures Split(SampleCell, '\n') == ["Bayern", "3 - 0", "Dortmund"]
  {
    ThreeLines("Bayern", "3 - 0", "Dortmund", SampleCell);
  }

  /** Three separator-free lines joined by newlines split back into those lines. */
  lemma {:induction false} ThreeLines(a: string, b: string, d: string, s: string)
    requires '\n' !in a && '\n' !in b && '\n' !in d
    requires s == a + ['\n'] + (b + ['\n'] + d)
    ensures Split(s, '\n') == [a, b, d]
  {
    SplitNone(d, '\n');
    SplitFirst(b, '\n', d);
    SplitFirst(a, '\n', b + ['\n'] + d);
  }

  lemma SampleNamesStripped()
    ensures Strip("Bayern") == "Bayern" && Strip("Dortmund") == "Dortmund"
  {
    TrimStartKeeps("Bayern");
    TrimEndKeeps("Bayern");
    TrimStartKeeps("Dortmund");
    TrimEndKeeps("Dortmund");
  }

  /** The sample cell without a link: the teams of its first and last lines, the score
      3 - 0 in between, a home win, and no id, link, competition, season or round. */
  lemma SampleElement(date: string, weekday: string)
    ensures var r := ParseMatchElement(Element(None, SampleCell), date, weekday);
            && r.Some?
            && r.value.homeTeam == JStr("Bayern") && r.value.awayTeam == JStr("Dortmund")
            && r.value.homeGoals == JNum(3) && r.value.awayGoals == JNum(0)
            && r.value.result == Win
            && r.value.matchId == JStr("") && r.value.matchUrl == ""
            && r.value.competition == JStr("") && r.value.season == JStr("")
            && r.value.round == JStr("")
  {
    SampleCellTeams();
    ScoreExample();
    SampleCellStripped();
    assert !Contains("", IdMarker) && !Contains("", PathIdMarker);
  }
}
