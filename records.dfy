/** The match dictionary both extraction paths build, with its 22 keys as fields. */
module Records {
  import opened JsonValue
  import opened Classifier

  /** The `time` entry: `""` when the event has no start timestamp, otherwise the kick-off
      instant, which the scraper prints as `%H:%M` in the host's time zone. */
  datatype Clock = NoTime | LocalTime(epochSeconds: int)

  /** Entries the API path copies from the event JSON keep whatever value the JSON held,
      so they are `Json`; entries the scraper always writes itself are strings. */
  datatype MatchRecord = MatchRecord(
    matchId: Json,
    date: string,
    time: Clock,
    weekday: string,
    competition: Json,
    season: Json,
    round: Json,
    venue: string,
    opponent: string,
    homeTeam: Json,
    awayTeam: Json,
    homeTeamId: Json,
    awayTeamId: Json,
    homeGoals: Json,
    awayGoals: Json,
    homeHt: Json,
    awayHt: Json,
    teamGoals: Json,
    opponentGoals: Json,
    result: string,
    status: string,
    matchUrl: string)

  /** What every record promises, whichever path built it: it describes a finished match
      from the home side, the team-perspective goals mirror the home and away goals, and the
      result is the classifier's verdict on those goals. */
  predicate Consistent(m: MatchRecord) {
    m.status == "finished"
    && m.venue == "" && m.opponent == ""
    && m.teamGoals == m.homeGoals && m.opponentGoals == m.awayGoals
    && m.result == DetermineResult(m.homeGoals, m.awayGoals)
  }

  /** The record was built for the date `date` with the weekday label `weekday`. */
  predicate OnDay(m: MatchRecord, date: string, weekday: string) {
    m.date == date && m.weekday == weekday
  }
}
