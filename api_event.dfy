/** `_parse_api_event`: one event object of the SofaScore API turned into a match record.
    Every exception the body can raise (a `.get` on something that is not a dict, a
    timestamp that is not a number) is caught and gives `None`, as does an unfinished match. */
module ApiEvent {
  import opened Wrappers
  import opened Text
  import opened JsonValue
  import opened Classifier
  import opened Records

  const EmptyDict := JObj([])
  const SiteRoot := "https://www.sofascore.com/"
  const IdMarker := "#id:"

  /** `datetime.fromtimestamp(ts)` when `ts` is truthy: a number (a bool is an int in
      Python) gives an instant, anything else raises TypeError. */
  function KickoffOf(ts: Json): (r: Option<Clock>)
    ensures !Truthy(ts) ==> r == Some(NoTime)
    ensures r.None? <==> Truthy(ts) && !ts.JNum? && !ts.JBool?
    ensures ts.JNum? && ts.n != 0 ==> r == Some(LocalTime(ts.n))
    ensures ts == JBool(true) ==> r == Some(LocalTime(1))
  {
    if !Truthy(ts) then Some(NoTime)
    else
      match ts
      case JNum(n) => Some(LocalTime(n))
      case JBool(_) => Some(LocalTime(1))
      case _ => None
  }

  /** `f"https://www.sofascore.com/{slug}#id:{match_id}" if slug else ""`. */
  function MatchUrl(slug: Json, matchId: Json): (u: string)
    ensures u == "" <==> !Truthy(slug)
    ensures Truthy(slug) ==> StartsWith(u, SiteRoot) && |u| >= |SiteRoot| + |IdMarker|
  {
    if Truthy(slug) then SiteRoot + Str(slug) + IdMarker + Str(matchId) else ""
  }

  /** `obj.get(key, {})` on a dict holds a dict: the key is absent or maps to a dict. */
  predicate DictOrAbsent(fields: seq<Field>, key: string) {
    !HasKey(fields, key) || Lookup(fields, key).value.JObj?
  }

  /** The keys whose values `_parse_api_event` reads with `.get(key, {})` and then calls
      `.get` on. */
  predicate SubObjectsAreDicts(fields: seq<Field>) {
    DictOrAbsent(fields, "status") && DictOrAbsent(fields, "homeTeam")
    && DictOrAbsent(fields, "awayTeam") && DictOrAbsent(fields, "homeScore")
    && DictOrAbsent(fields, "awayScore") && DictOrAbsent(fields, "tournament")
    && DictOrAbsent(fields, "season") && DictOrAbsent(fields, "roundInfo")
  }

  /** `event['status']['type'] == 'finished'`, with both keys present. */
  predicate Finished(fields: seq<Field>) {
    HasKey(fields, "status")
    && var status := Lookup(fields, "status").value;
       status.JObj? && HasKey(status.fields, "type")
       && Lookup(status.fields, "type").value == JStr("finished")
  }

  /** A start timestamp that is absent, falsy or a number. */
  predicate TimestampUsable(fields: seq<Field>) {
    !HasKey(fields, "startTimestamp")
    || var ts := Lookup(fields, "startTimestamp").value;
       !Truthy(ts) || ts.JNum? || ts.JBool?
  }

  /** The events `_parse_api_event` turns into a record, stated key by key. */
  predicate WellShaped(event: Json) {
    event.JObj? && SubObjectsAreDicts(event.fields) && Finished(event.fields)
    && TimestampUsable(event.fields)
  }

  /** `d.get(key, default)` on a dict `d`: never raises. */
  function Entry(fields: seq<Field>, key: string, default: Json): (v: Json)
    ensures HasKey(fields, key) ==> Some(v) == Lookup(fields, key)
    ensures !HasKey(fields, key) ==> v == default
  {
    match Lookup(fields, key)
    case Some(v) => v
    case None => default
  }

  /** `event.get(key, {})` when the result is used as a dict; `None` when it is not one
      (the next `.get` on it raises AttributeError). */
  function SubDict(fields: seq<Field>, key: string): (r: Option<seq<Field>>)
    ensures r.Some? <==> DictOrAbsent(fields, key)
    ensures r.Some? ==> JObj(r.value) == Entry(fields, key, EmptyDict)
  {
    match Entry(fields, key, EmptyDict)
    case JObj(sub) => Some(sub)
    case _ => None
  }

  /** `_parse_api_event(event, date_str, weekday)`. */
  function ParseApiEvent(event: Json, date: string, weekday: string): Option<MatchRecord> {
    if !event.JObj? then None
    else
      var f := event.fields;
      var status :- SubDict(f, "status");
      if Entry(status, "type", JStr("")) != JStr("finished") then None
      else
        var homeTeamData :- SubDict(f, "homeTeam");
        var awayTeamData :- SubDict(f, "awayTeam");
        var homeScore :- SubDict(f, "homeScore");
        var awayScore :- SubDict(f, "awayScore");
        var tournament :- SubDict(f, "tournament");
        var seasonData :- SubDict(f, "season");
        var roundInfo :- SubDict(f, "roundInfo");
        var time :- KickoffOf(Entry(f, "startTimestamp", JNum(0)));
        var matchId := Entry(f, "id", JStr(""));
        var homeGoals := Entry(homeScore, "current", JNum(0));
        var awayGoals := Entry(awayScore, "current", JNum(0));
        var season := Entry(seasonData, "name", Entry(seasonData, "year", JStr("")));
        Some(MatchRecord(
          matchId, date, time, weekday, Entry(tournament, "name", JStr("")), season,
          Entry(roundInfo, "round", JStr("")), "", "",
          Entry(homeTeamData, "name", JStr("")), Entry(awayTeamData, "name", JStr("")),
          Entry(homeTeamData, "id", JStr("")), Entry(awayTeamData, "id", JStr("")),
          homeGoals, awayGoals,
          Entry(homeScore, "period1", JNum(0)), Entry(awayScore, "period1", JNum(0)),
          homeGoals, awayGoals, DetermineResult(homeGoals, awayGoals), "finished",
          MatchUrl(Entry(f, "slug", JStr("")), matchId)))
  }

  /** An event gives a record exactly when it is well shaped, and the record describes a
      finished match of the date asked for, its result agreeing with its goals. */
  lemma {:induction false} ParseApiEventShape(event: Json, date: string, weekday: string)
    ensures var r := ParseApiEvent(event, date, weekday);
            && (r.Some? <==> WellShaped(event))
            && (r.Some? ==> Consistent(r.value) && OnDay(r.value, date, weekday))
  {
  }

  /** `season` is the season's name when it has one, else its year, else `''`. */
  lemma {:induction false} SeasonFallback(event: Json, date: string, weekday: string)
    requires ParseApiEvent(event, date, weekday).Some?
    ensures var sd := Entry(event.fields, "season", EmptyDict).fields;
            var m := ParseApiEvent(event, date, weekday).value;
            (HasKey(sd, "name") ==> Some(m.season) == Lookup(sd, "name"))
            && (!HasKey(sd, "name") && HasKey(sd, "year") ==> Some(m.season) == Lookup(sd, "year"))
            && (!HasKey(sd, "name") && !HasKey(sd, "year") ==> m.season == JStr(""))
  {
    ParseApiEventShape(event, date, weekday);
  }

  /** A finished event that carries nothing else gets every default: `''` for ids, names,
      competition, season and round, 0 for goals and half-time goals, no time, no URL,
      and a draw. */
  lemma {:induction false} DefaultsExample(date: string, weekday: string)
    ensures var e := JObj([Field("status", JObj([Field("type", JStr("finished"))]))]);
            ParseApiEvent(e, date, weekday) == Some(MatchRecord(
              JStr(""), date, NoTime, weekday, JStr(""), JStr(""), JStr(""), "", "",
              JStr(""), JStr(""), JStr(""), JStr(""), JNum(0), JNum(0), JNum(0), JNum(0),
              JNum(0), JNum(0), Draw, "finished", ""))
  {
    var f := [Field("status", JObj([Field("type", JStr("finished"))]))];
    assert Lookup(f, "status") == Some(JObj([Field("type", JStr("finished"))]));
    assert !HasKey(f, "homeTeam") && !HasKey(f, "awayTeam") && !HasKey(f, "homeScore")
      && !HasKey(f, "awayScore") && !HasKey(f, "tournament") && !HasKey(f, "season")
      && !HasKey(f, "roundInfo") && !HasKey(f, "startTimestamp") && !HasKey(f, "id")
      && !HasKey(f, "slug");
  }

  /** A finished event that names its teams and their current scores, and carries nothing
      else. */
  function ScoredEvent(home: string, away: string, homeGoals: int, awayGoals: int): Json {
    JObj([
      Field("homeTeam", JObj([Field("name", JStr(home))])),
      Field("awayTeam", JObj([Field("name", JStr(away))])),
      Field("homeScore", JObj([Field("current", JNum(homeGoals))])),
      Field("awayScore", JObj([Field("current", JNum(awayGoals))])),
      Field("status", JObj([Field("type", JStr("finished"))]))])
  }

  /** Such an event gives a record with its teams and goals, and the classifier's verdict on
      them. */
  lemma {:induction false} ScoredEventParses(home: string, away: string, hg: int, ag: int, date: string, weekday: string)
    ensures var r := ParseApiEvent(ScoredEvent(home, away, hg, ag), date, weekday);
            && r.Some? && r.value.homeTeam == JStr(home) && r.value.awayTeam == JStr(away)
            && r.value.homeGoals == JNum(hg) && r.value.awayGoals == JNum(ag)
            && r.value.result == Compare(hg, ag)
  {
    var e := ScoredEvent(home, away, hg, ag);
    KeysDiffer();
    ScoredEventStatus(e.fields, home, away, hg, ag);
    ScoredEventTeams(e.fields, home, away, hg, ag);
    ScoredEventHomeScore(e.fields, home, away, hg, ag);
    ScoredEventAwayScore(e.fields, home, away, hg, ag);
    ScoredEventAbsent(e.fields, home, away, hg, ag);
    ParseFromLookups(e, date, weekday, home, away, hg, ag);
  }

  /** An event whose finished status, team names and current scores are found under their
      keys, with no tournament, season, round or kick-off, gives a record of those teams and
      goals. */
  lemma {:induction false} ParseFromLookups(event: Json, date: string, weekday: string, home: string, away: string, hg: int, ag: int)
    requires event.JObj?
    requires Lookup(event.fields, "status") == Some(JObj([Field("type", JStr("finished"))]))
    requires Lookup(event.fields, "homeTeam") == Some(JObj([Field("name", JStr(home))]))
    requires Lookup(event.fields, "awayTeam") == Some(JObj([Field("name", JStr(away))]))
    requires Lookup(event.fields, "homeScore") == Some(JObj([Field("current", JNum(hg))]))
    requires Lookup(event.fields, "awayScore") == Some(JObj([Field("current", JNum(ag))]))
    requires !HasKey(event.fields, "tournament") && !HasKey(event.fields, "season")
    requires !HasKey(event.fields, "roundInfo") && !HasKey(event.fields, "startTimestamp")
    ensures var r := ParseApiEvent(event, date, weekday);
            && r.Some? && r.value.homeTeam == JStr(home) && r.value.awayTeam == JStr(away)
            && r.value.homeGoals == JNum(hg) && r.value.awayGoals == JNum(ag)
            && r.value.result == Compare(hg, ag)
  {
    var f := event.fields;
    assert SubDict(f, "status") == Some([Field("type", JStr("finished"))]);
    assert SubDict(f, "homeTeam") == Some([Field("name", JStr(home))]);
    assert SubDict(f, "awayTeam") == Some([Field("name", JStr(away))]);
    assert SubDict(f, "homeScore") == Some([Field("current", JNum(hg))]);
    assert SubDict(f, "awayScore") == Some([Field("current", JNum(ag))]);
    assert SubDict(f, "tournament") == Some([]) && SubDict(f, "season") == Some([]);
    assert SubDict(f, "roundInfo") == Some([]);
    assert KickoffOf(Entry(f, "startTimestamp", JNum(0))) == Some(NoTime);
    IntegerGoals(hg, ag);
  }

  lemma {:induction false} ScoredEventStatus(f: seq<Field>, home: string, away: string, hg: int, ag: int)
    requires f == ScoredEvent(home, away, hg, ag).fields
    ensures Lookup(f, "status") == Some(JObj([Field("type", JStr("finished"))]))
  {
    KeysDiffer();
    LookupFirstHit(f, 4);
  }

  lemma {:induction false} ScoredEventTeams(f: seq<Field>, home: string, away: string, hg: int, ag: int)
    requires f == ScoredEvent(home, away, hg, ag).fields
    ensures Lookup(f, "homeTeam") == Some(JObj([Field("name", JStr(home))]))
    ensures Lookup(f, "awayTeam") == Some(JObj([Field("name", JStr(away))]))
  {
    KeysDiffer();
    LookupFirstHit(f, 0);
    LookupFirstHit(f, 1);
  }

  lemma {:induction false} ScoredEventHomeScore(f: seq<Field>, home: string, away: string, hg: int, ag: int)
    requires f == ScoredEvent(home, away, hg, ag).fields
    ensures Lookup(f, "homeScore") == Some(JObj([Field("current", JNum(hg))]))
  {
    KeysDiffer();
    LookupFirstHit(f, 2);
  }

  lemma {:induction false} ScoredEventAwayScore(f: seq<Field>, home: string, away: string, hg: int, ag: int)
    requires f == ScoredEvent(home, away, hg, ag).fields
    ensures Lookup(f, "awayScore") == Some(JObj([Field("current", JNum(ag))]))
  {
    KeysDiffer();
    LookupFirstHit(f, 3);
  }

  lemma {:induction false} ScoredEventAbsent(f: seq<Field>, home: string, away: string, hg: int, ag: int)
    requires f == ScoredEvent(home, away, hg, ag).fields
    ensures !HasKey(f, "tournament") && !HasKey(f, "season")
    ensures !HasKey(f, "roundInfo") && !HasKey(f, "startTimestamp")
  {
    LookupMissing(f, "tournament");
    LookupMissing(f, "season");
    LookupMissing(f, "roundInfo");
    LookupMissing(f, "startTimestamp");
  }

  /** A finished Arsenal-Chelsea match won 2-1 by the home side, as the API reports it. */
  const ArsenalChelsea: Json := ScoredEvent("Arsenal", "Chelsea", 2, 1)

  /** That event gives a record with its teams and goals, and the home win. */
  lemma HomeWinExample(date: string, weekday: string)
    ensures var r := ParseApiEvent(ArsenalChelsea, date, weekday);
            && r.Some? && r.value.homeTeam == JStr("Arsenal") && r.value.awayTeam == JStr("Chelsea")
            && r.value.homeGoals == JNum(2) && r.value.awayGoals == JNum(1) && r.value.result == Win
  {
    ScoredEventParses("Arsenal", "Chelsea", 2, 1, date, weekday);
  }

  /** The keys of the example event differ from one another and from the keys it lacks. */
  lemma KeysDiffer()
    ensures "status" != "homeTeam" && "status" != "awayTeam" && "status" != "homeScore"
    ensures "status" != "awayScore" && "homeTeam" != "awayTeam" && "homeScore" != "awayScore"
    ensures "homeTeam" != "homeScore" && "awayTeam" != "awayScore"
    ensures "homeTeam" != "awayScore" && "awayTeam" != "homeScore"
  {
    assert "homeTeam"[0] != "awayTeam"[0] && "homeScore"[0] != "awayScore"[0];
    assert "homeTeam"[4] != "homeScore"[4] && "awayTeam"[4] != "awayScore"[4];
    assert "homeTeam"[0] != "awayScore"[0] && "awayTeam"[0] != "homeScore"[0];
  }

  /** A match that has not finished is dropped, however complete it is otherwise. */
  lemma {:induction false} UnfinishedExample(rest: seq<Field>, date: string, weekday: string)
    ensures ParseApiEvent(JObj([Field("status", JObj([Field("type", JStr("inprogress"))]))] + rest),
                          date, weekday) == None
  {
    var f := [Field("status", JObj([Field("type", JStr("inprogress"))]))] + rest;
    assert f[0].key == "status";
    assert Lookup(f, "status") == Some(JObj([Field("type", JStr("inprogress"))]));
  }

  /** With a string slug and an integer id the permalink is the site root, the slug, the
      `#id:` marker and the id in decimal. */
  lemma {:induction false} PermalinkOfIntegerId(event: Json, date: string, weekday: string, slug: string, id: int)
    requires ParseApiEvent(event, date, weekday).Some?
    requires Lookup(event.fields, "slug") == Some(JStr(slug)) && slug != []
    requires Lookup(event.fields, "id") == Some(JNum(id))
    ensures ParseApiEvent(event, date, weekday).value.matchUrl == SiteRoot + slug + IdMarker + IntToString(id)
  {
    ParseApiEventShape(event, date, weekday);
    assert Entry(event.fields, "slug", JStr("")) == JStr(slug);
    assert Entry(event.fields, "id", JStr("")) == JNum(id);
    assert ParseApiEvent(event, date, weekday).value.matchUrl == MatchUrl(JStr(slug), JNum(id));
  }

  /** Without a slug (or with an empty one) there is no permalink. */
  lemma {:induction false} NoSlugNoUrl(event: Json, date: string, weekday: string)
    requires ParseApiEvent(event, date, weekday).Some?
    requires !HasKey(event.fields, "slug") || !Truthy(Lookup(event.fields, "slug").value)
    ensures ParseApiEvent(event, date, weekday).value.matchUrl == ""
  {
    ParseApiEventShape(event, date, weekday);
  }
}
