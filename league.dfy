/** `_is_top5_league` and `get_top5_matches`: the filter that keeps the matches of the five
    big European leagues, by loose substring matching on the competition name. */
module League {
  import opened Wrappers
  import opened Text
  import opened JsonValue
  import opened Records

  /** `TOP5_LEAGUES`, with the two spellings of the Spanish league. */
  const Top5Leagues: seq<string> :=
    ["Premier League", "LaLiga", "La Liga", "Bundesliga", "Serie A", "Ligue 1"]

  /** `league.lower() in name or name in league.lower()`. */
  predicate NameMatches(name: string, league: string) {
    Contains(name, Lower(league)) || Contains(Lower(league), name)
  }

  /** The `for league in TOP5_LEAGUES` loop: true at the first league that matches. */
  function AnyLeague(name: string, leagues: seq<string>): bool {
    leagues != [] && (NameMatches(name, leagues[0]) || AnyLeague(name, leagues[1..]))
  }

  /** The loop answers true exactly when some league in the list matches. */
  lemma {:induction false} AnyLeagueIff(name: string, leagues: seq<string>)
    ensures AnyLeague(name, leagues) <==> exists k :: 0 <= k < |leagues| && NameMatches(name, leagues[k])
  {
    if leagues != [] {
      AnyLeagueIff(name, leagues[1..]);
      if AnyLeague(name, leagues[1..]) {
        var k :| 0 <= k < |leagues[1..]| && NameMatches(name, leagues[1..][k]);
        assert NameMatches(name, leagues[k + 1]);
      }
      if exists k :: 0 <= k < |leagues| && NameMatches(name, leagues[k]) {
        var k :| 0 <= k < |leagues| && NameMatches(name, leagues[k]);
        if k > 0 {
          assert NameMatches(name, leagues[1..][k - 1]);
        }
      }
    }
  }

  /** `_is_top5_league(competition)`: false for a falsy name; otherwise the name is
      lowercased and stripped and matched against every league. A truthy value that is not a
      string has no `lower`, and the AttributeError it raises is `None` here. */
  function IsTop5League(competition: Json): (r: Option<bool>)
    ensures !Truthy(competition) ==> r == Some(false)
    ensures r.None? <==> Truthy(competition) && !competition.JStr?
    ensures competition.JStr? && competition.s != [] ==>
              r == Some(AnyLeague(Strip(Lower(competition.s)), Top5Leagues))
  {
    if !Truthy(competition) then Some(false)
    else if competition.JStr? then Some(AnyLeague(Strip(Lower(competition.s)), Top5Leagues))
    else None
  }

  /** `[m for m in matches if _is_top5_league(m.get('competition', ''))]`; the comprehension
      raises (`None`) as soon as one competition does. */
  function Top5Filter(ms: seq<MatchRecord>): Option<seq<MatchRecord>> {
    if ms == [] then Some([]) else Top5Step(Top5Filter(ms[..|ms| - 1]), ms[|ms| - 1])
  }

  /** One step of the comprehension: `m` is appended when its league matches, and a
      failure, earlier or now, is final. */
  function Top5Step(kept: Option<seq<MatchRecord>>, m: MatchRecord): Option<seq<MatchRecord>> {
    StepBy(kept, m, IsTop5League(m.competition))
  }

  /** A step given the verdict `keep` on `m`'s league. */
  function StepBy(kept: Option<seq<MatchRecord>>, m: MatchRecord, keep: Option<bool>): Option<seq<MatchRecord>> {
    match (kept, keep)
    case (Some(rest), Some(k)) => Some(if k then rest + [m] else rest)
    case _ => None
  }

  /** Every record whose competition the filter can classify. */
  predicate Classifiable(ms: seq<MatchRecord>) {
    forall k :: 0 <= k < |ms| ==> IsTop5League(ms[k].competition).Some?
  }

  /** The filter fails exactly when some competition is a truthy non-string. */
  lemma {:induction false} Top5FilterDefined(ms: seq<MatchRecord>)
    ensures Top5Filter(ms).Some? <==> Classifiable(ms)
    decreases |ms|
  {
    if ms != [] {
      var init := ms[..|ms| - 1];
      Top5FilterDefined(init);
      assert forall k :: 0 <= k < |init| ==> init[k] == ms[k];
    }
  }

  /** The filter keeps a record exactly when its competition is a top-five league. */
  lemma {:induction false} Top5FilterMembers(ms: seq<MatchRecord>, m: MatchRecord)
    requires Top5Filter(ms).Some?
    ensures m in Top5Filter(ms).value <==> m in ms && IsTop5League(m.competition) == Some(true)
    decreases |ms|
  {
    if ms != [] {
      var init := ms[..|ms| - 1];
      Top5FilterMembers(init, m);
      assert ms == init + [ms[|ms| - 1]];
    }
  }

  /** Filtering one more record at the end. */
  lemma {:induction false} Top5FilterSnoc(ms: seq<MatchRecord>, m: MatchRecord)
    ensures Top5Filter(ms + [m]) == Top5Step(Top5Filter(ms), m)
  {
    assert (ms + [m])[..|ms|] == ms;
  }

  /** The filter works record by record: filtering a concatenation concatenates the
      filtered parts, so the kept records stay in their original order. */
  lemma {:induction false} Top5FilterAppend(a: seq<MatchRecord>, b: seq<MatchRecord>)
    ensures Top5Filter(a + b) ==
              (if Top5Filter(a).Some? && Top5Filter(b).Some?
               then Some(Top5Filter(a).value + Top5Filter(b).value) else None)
    decreases |b|
  {
    if b == [] {
      assert a + b == a;
      assert Top5Filter(b) == Some([]);
      if Top5Filter(a).Some? {
        assert Top5Filter(a).value + [] == Top5Filter(a).value;
      }
    } else {
      var init, last := b[..|b| - 1], b[|b| - 1];
      assert b == init + [last];
      assert a + b == (a + init) + [last];
      Top5FilterAppend(a, init);
      Top5FilterSnoc(a + init, last);
      Top5FilterSnoc(init, last);
      Top5StepAfter(Top5Filter(a), Top5Filter(init), last);
    }
  }

  /** A step after two concatenated results is a step after the second one. */
  lemma {:induction false} Top5StepAfter(x: Option<seq<MatchRecord>>, y: Option<seq<MatchRecord>>, m: MatchRecord)
    ensures Top5Step(if x.Some? && y.Some? then Some(x.value + y.value) else None, m)
         == (var z := Top5Step(y, m); if x.Some? && z.Some? then Some(x.value + z.value) else None)
  {
    StepByAfter(x, y, m, IsTop5League(m.competition));
  }

  lemma {:induction false} StepByAfter(x: Option<seq<MatchRecord>>, y: Option<seq<MatchRecord>>, m: MatchRecord, keep: Option<bool>)
    ensures StepBy(if x.Some? && y.Some? then Some(x.value + y.value) else None, m, keep)
         == (var z := StepBy(y, m, keep); if x.Some? && z.Some? then Some(x.value + z.value) else None)
  {
    if x.Some? && y.Some? && keep == Some(true) {
      assert x.value + y.value + [m] == x.value + (y.value + [m]);
    }
  }

  /** A single record is kept exactly when its league matches. */
  lemma {:induction false} Top5FilterSingle(m: MatchRecord)
    ensures IsTop5League(m.competition) == Some(true) ==> Top5Filter([m]) == Some([m])
    ensures IsTop5League(m.competition) == Some(false) ==> Top5Filter([m]) == Some([])
    ensures IsTop5League(m.competition).None? ==> Top5Filter([m]).None?
  {
    assert [m][..0] == [];
    assert Top5Filter([]) == Some([]);
    assert [] + [m] == [m];
  }

  // ---------------------------------------------------------------------------
  // Examples

  /** A name with a season suffix, in capitals, still names the Premier League. */
  lemma PremierLeagueSeason()
    ensures IsTop5League(JStr("PREMIER LEAGUE 2024/25")) == Some(true)
  {
    var raw := "PREMIER LEAGUE 2024/25";
    var name := Lower(raw);
    var league := Lower("Premier League");
    TrimStartKeeps(name);
    TrimEndKeeps(name);
    assert name[..|league|] == league;
    assert OccursAt(name, league, 0);
    assert NameMatches(name, Top5Leagues[0]);
  }

  /** A fragment of a league name matches too: "Liga" lies inside "laliga". */
  lemma LigaFragment()
    ensures IsTop5League(JStr("Liga")) == Some(true)
  {
    var name := Lower("Liga");
    assert name == "liga";
    TrimStartKeeps(name);
    TrimEndKeeps(name);
    var league := Lower("LaLiga");
    assert league == "laliga";
    assert league[2..6] == name;
    assert OccursAt(league, name, 2);
    assert NameMatches(name, Top5Leagues[1]);
    assert AnyLeague(name, Top5Leagues[1..]);
  }

  /** A league not in the list: "championship" holds a `c` that no league name holds, and
      every league name holds an `e` or an `l` that "championship" lacks. */
  lemma ChampionshipIsNot()
    ensures IsTop5League(JStr("Championship")) == Some(false)
  {
    var name := Lower("Championship");
    assert name == "championship";
    TrimStartKeeps(name);
    TrimEndKeeps(name);
    forall k | 0 <= k < |Top5Leagues|
      ensures !NameMatches(name, Top5Leagues[k])
    {
      ChampionshipMisses(k);
    }
    AnyLeagueIff(name, Top5Leagues);
  }

  /** One league at a time: the lowercased league holds an `e` or an `l` (at `j`) that
      "championship" lacks, and "championship" starts with a `c` that the league lacks. */
  lemma ChampionshipMisses(k: nat)
    requires k < |Top5Leagues|
    ensures !NameMatches("championship", Top5Leagues[k])
  {
    var name := "championship";
    var league := Lower(Top5Leagues[k]);
    var j := [2, 0, 0, 4, 1, 0][k];
    if k == 0 {
      assert league == "premier league";
    } else if k == 1 {
      assert league == "laliga";
    } else if k == 2 {
      assert league == "la liga";
    } else if k == 3 {
      assert league == "bundesliga";
    } else if k == 4 {
      assert league == "serie a";
    } else {
      assert league == "ligue 1";
    }
    AbsentCharNotContained(name, league, j);
    AbsentCharNotContained(league, name, 0);
  }

  /** A whitespace-only name strips to the empty string, which every league contains. */
  lemma BlankNameMatches()
    ensures IsTop5League(JStr(" ")) == Some(true)
  {
    assert Lower(" ") == " ";
    assert AllSpace(" ");
    assert Strip(Lower(" ")) == [];
    EmptyContained(Lower(Top5Leagues[0]));
    assert NameMatches([], Top5Leagues[0]);
  }

  /** An empty name and a missing one are not top-five leagues; a numeric one raises. */
  lemma FalsyAndNumericNames()
    ensures IsTop5League(JStr("")) == Some(false)
    ensures IsTop5League(JNull) == Some(false)
    ensures IsTop5League(JNum(17)) == None
  {
  }
}
