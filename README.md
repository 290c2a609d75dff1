# SofaScore scraper, modelled in Dafny

This project models the data path of `SofaScoreScraper`, the class in `sofascore_scraper.py`
that collects finished football matches from SofaScore for a range of dates. It covers:

- how a date string is parsed (`strptime("%Y-%m-%d")`) and labelled with a weekday;
- how a finished match is read from an API event (`_parse_api_event`) or from a match cell
  of the page (`_parse_match_element`: the link, the team lines, the first `N - M` score);
- the recursive search for `events` lists in a JSON blob (`find_events`);
- the result label (`_determine_result`) with Python's loose `int()` coercion;
- the per-date cascade (API first, then page elements, then the embedded script data);
- the day-by-day walk of `scrape_date_range`, which stores its matches in `self.matches`;
- the top-five-league filter (`_is_top5_league`, `get_top5_matches`).

The browser is not modelled. Whatever it would answer is an input:

- A `Page` holds whether the page loaded, the value the in-page `fetch` returned, what each
  CSS selector finds (a function from selector to elements, `None` when the lookup raises)
  and the parsed script blob.
- A date range takes a site: a function from each formatted date to its `Page`.
- A raised exception is `None` in an `Option` result. A caught one is the fallback value the
  source returns in its `except` clause.

JSON values are a datatype (`JNull`, `JBool`, `JNum` for integers, `JStr`, `JArr`, `JObj`
with a sequence of fields). A record (`MatchRecord`) has the 22 keys the source's dicts have.
Keys that copy a raw JSON value (`match_id`, `competition`, goals, ...) hold a `Json`.

Files:

| file | contents |
|---|---|
| `wrappers.dfy` | `Option` |
| `text.dfy` | Python's `strip`, `lower`, `in` on strings, `split`, `int()` and `str()` on integers |
| `json.dfy` | JSON values, truthiness, dict lookup, `str()` |
| `calendar.dfy` | proleptic Gregorian dates, `strptime`/`strftime` for `%Y-%m-%d`, `weekday()`, `+ timedelta(days=1)` |
| `classifier.dfy` | `_determine_result` |
| `records.dfy` | the match record and what every record built for a date satisfies |
| `api_event.dfy` | `_parse_api_event` |
| `page_element.dfy` | `_parse_match_element`: match id from the link, team names, the score regex |
| `league.dfy` | `_is_top5_league` and the filter of `get_top5_matches` |
| `extraction.dfy` | specification functions of the event walk, the per-date cascade and the date-range walk |
| `scraper.dfy` | the `SofaScoreScraper` class: its methods, proved against the functions above |

## Model

| member | source | states |
|---|---|---|
| Scraper.SofaScoreScraper.constructor | sofascore_scraper.py:38-48 | a new scraper holds no matches |
| Scraper.SofaScoreScraper.FindEvents | sofascore_scraper.py:385-397 | the recursive walk appends exactly `Events(obj)` to what was gathered: the dict's own `events` list first, then every value, then list items, in order |
| Scraper.SofaScoreScraper.FindInValues | sofascore_scraper.py:390-391 | the loop over a dict's values appends the walks of all the values, in key order |
| Scraper.SofaScoreScraper.FindInItems | sofascore_scraper.py:392-394 | the loop over a list appends the walks of all the items, in order |
| Scraper.SofaScoreScraper.ParseEvents | sofascore_scraper.py:399-402 | every event `_parse_api_event` turns into a record is appended, in order, and no other record |
| Scraper.SofaScoreScraper.ParseJsonMatchData | sofascore_scraper.py:381-404 | the records are those parsed from the events the walk finds |
| Scraper.SofaScoreScraper.ExtractFromApi | sofascore_scraper.py:202-227 | records come only from a dict answer with an `events` list; any other answer gives `[]` |
| Scraper.SofaScoreScraper.ExtractFromScriptData | sofascore_scraper.py:168-200 | no script data gives `[]`; otherwise the records of the JSON walk |
| Scraper.SofaScoreScraper.ExtractMatchesFromPage | sofascore_scraper.py:122-166 | raises exactly when the date has no weekday; the first selector that finds elements is used, else the script data; unreadable elements are skipped |
| Scraper.SofaScoreScraper.ScrapeDate | sofascore_scraper.py:421-458 | `[]` when the page does not load or the date does not parse; the API records when there are any, else the page's |
| Scraper.SofaScoreScraper.ScrapeDateRange | sofascore_scraper.py:460-487 | result and stored matches are the days' matches from start to end concatenated in date order; a bad date or a step past 9999-12-31 raises and leaves the stored matches unchanged |
| Scraper.SofaScoreScraper.GetTop5Matches | sofascore_scraper.py:508-515 | the stored matches whose competition is a top-five league, in order; raises when a competition is a truthy non-string |
| Extraction.EveryItemWalked | sofascore_scraper.py:392-394 | the walk of a list is the walks of the items before, the walk of item k, and the walks after |
| Extraction.EveryValueWalked | sofascore_scraper.py:390-391 | the walk reaches every value of a dict, the `events` list itself included |
| Extraction.OwnEventsFirst | sofascore_scraper.py:388-391 | pre-order: a dict's own `events` items come before anything found below it |
| Extraction.EventsListWalkedAgain | sofascore_scraper.py:388-391 | the items of an `events` list are returned, and then searched again for nested lists |
| Extraction.EventsNotAList | sofascore_scraper.py:388 | an `events` value that is not a list is not added, only searched |
| Extraction.EventsInItemsAppend | sofascore_scraper.py:392-394 | the walk over a concatenated list is the two walks concatenated |
| Extraction.EventsInFieldsAppend | sofascore_scraper.py:390-391 | the walk over concatenated dict entries is the two walks concatenated |
| Extraction.Keep | sofascore_scraper.py:219-222 | the kept-record loop never returns more records than inputs |
| Extraction.KeepAppend | sofascore_scraper.py:399-402 | keeping records from a concatenation concatenates the kept records |
| Extraction.KeepMembers | sofascore_scraper.py:153-157 | the records kept are exactly the non-`None` results on the inputs |
| Extraction.ParsedRecordsConsistent | sofascore_scraper.py:219-222 | every record from API events is consistent and carries the requested date and weekday |
| Extraction.ElementRecordsConsistent | sofascore_scraper.py:153-157 | every record from page elements is consistent, on the requested date, with no kick-off time |
| Extraction.UnreadableElements | sofascore_scraper.py:153-159 | detached elements and one-line cells give no records |
| Extraction.ApiScenario | sofascore_scraper.py:216-222 | an answer whose `events` hold the finished Arsenal-Chelsea match and a match in progress gives exactly one record: Arsenal, Chelsea, 2-1, a win |
| Extraction.ApiMatches | sofascore_scraper.py:216-222 | a non-dict answer or one without `events` gives `[]`; a dict gives the records of its `events` items |
| Extraction.FirstHitIsFirst | sofascore_scraper.py:136-142 | the elements used are those of the first selector that finds any |
| Extraction.FirstHitMisses | sofascore_scraper.py:136-149 | no elements are used exactly when every selector raises or finds nothing |
| Extraction.DayMatches | sofascore_scraper.py:434-458 | a page that does not load, or a date that does not parse, gives `[]` |
| Extraction.ScrapedRecordsConsistent | sofascore_scraper.py:421-451 | every record of a date is consistent and carries that date and its weekday label |
| Extraction.ApiFirst | sofascore_scraper.py:443-448 | the page is consulted only when the API yields nothing |
| Extraction.VisitFails | sofascore_scraper.py:476-484 | the walk raises exactly when the end is 9999-12-31 and the start is not after it |
| Extraction.VisitDays | sofascore_scraper.py:476-484 | the visited dates are consecutive days from the start and the last one is the end |
| Extraction.RangeIsVisit | sofascore_scraper.py:476-484 | the range's matches are the visited days' matches concatenated in order |
| Extraction.RangeStep | sofascore_scraper.py:476-484 | one loop turn: a day's matches followed by the rest of the walk from the next day |
| Extraction.RangeSoFarStep | sofascore_scraper.py:476-484 | a loop turn keeps the gathered-so-far invariant |
| Extraction.RangeSoFarOverflow | sofascore_scraper.py:484 | stepping past the last representable day makes the whole walk raise |
| Extraction.RangeSoFarDone | sofascore_scraper.py:476-487 | when the loop ends the gathered matches are the whole walk |
| Extraction.RangeMatches | sofascore_scraper.py:473-474 | an unparsable start or end date raises |
| Extraction.RangeMatchesVisit | sofascore_scraper.py:460-487 | the range succeeds exactly when the walk does, with the visited days' matches |
| Extraction.EmptyRange | sofascore_scraper.py:476 | a start after the end visits nothing and gives `[]` |
| Extraction.SingleDay | sofascore_scraper.py:476-484 | a one-day range is that day's scrape |
| ApiEvent.KickoffOf | sofascore_scraper.py:273-278 | a falsy timestamp gives no time; a non-zero number gives that instant, and `true` the instant 1; a truthy value that is neither a number nor a bool raises |
| ApiEvent.MatchUrl | sofascore_scraper.py:281-282 | empty exactly when the slug is falsy; otherwise it starts with the site root and is long enough to hold the `#id:` marker after it (the full form is `ApiEvent.PermalinkOfIntegerId`) |
| ApiEvent.Entry | sofascore_scraper.py:233-273 | `dict.get`: the stored value for a present key, the default otherwise |
| ApiEvent.SubDict | sofascore_scraper.py:243-269 | `get(key, {})` yields a dict exactly when the key is absent or holds a dict |
| ApiEvent.ParseApiEventShape | sofascore_scraper.py:229-311 | a record exactly for finished, well-shaped events; the record is consistent and carries the date and weekday |
| ApiEvent.SeasonFallback | sofascore_scraper.py:265-266 | the season is its name, else its year, else `''` |
| ApiEvent.DefaultsExample | sofascore_scraper.py:240-306 | a bare finished event gets the documented defaults (ids `''`, goals 0, draw) |
| ApiEvent.ParseFromLookups | sofascore_scraper.py:229-306 | an event whose status, team names and current scores are found under their keys, and which lacks the other sub-dicts, gives a record of those names and goals with the comparison's label |
| ApiEvent.ScoredEventParses | sofascore_scraper.py:229-306 | a finished event carrying only team names and current scores gives a record of those names and goals, labelled by the comparison |
| ApiEvent.HomeWinExample | sofascore_scraper.py:229-306 | the finished Arsenal-Chelsea event with scores 2 and 1 gives Arsenal, Chelsea, goals 2 and 1, and a win |
| ApiEvent.UnfinishedExample | sofascore_scraper.py:233-237 | an event that is not finished gives no record |
| ApiEvent.PermalinkOfIntegerId | sofascore_scraper.py:280-282 | the match URL is the site root, the slug, `#id:` and the decimal id |
| ApiEvent.NoSlugNoUrl | sofascore_scraper.py:281-282 | without a truthy slug the URL is empty |
| PageElement.MatchIdOf | sofascore_scraper.py:320-324 | the id is a suffix of the link: after the last `#id:`, else after the last `/id:`, else `''` |
| PageElement.PermalinkIdReadsBack | sofascore_scraper.py:320-322 | the id read from a permalink the API path builds is the id it was built from |
| PageElement.ScoreAtHasShape | sofascore_scraper.py:344-345 | where the score pattern matches, its groups are digit runs around whitespace and one `-` or `:` |
| PageElement.ScoreAtIsTheMatch | sofascore_scraper.py:344-345 | every way the pattern can match at a position uses the same two groups (greedy runs) |
| PageElement.ShapeForced | sofascore_scraper.py:344 | any match of the pattern's shape means the greedy reading matches |
| PageElement.ScoreStartLeftmost | sofascore_scraper.py:345 | the search returns the leftmost match position, or none when no position matches |
| PageElement.ScoreStartAt | sofascore_scraper.py:345 | the first matching position is what the search returns |
| PageElement.NoDigitsNoScore | sofascore_scraper.py:345-351 | text without digits holds no score |
| PageElement.TeamsOf | sofascore_scraper.py:327-341 | names exist exactly when the stripped text spans two or more lines; the home name is a non-empty, single-line prefix of the stripped text and the away name a non-empty, single-line suffix |
| PageElement.FirstLineName | sofascore_scraper.py:334-340 | the home name is the stripped first line and opens the text |
| PageElement.LastLineName | sofascore_scraper.py:334-341 | the away name is the stripped last line and closes the text |
| PageElement.ParseMatchElement | sofascore_scraper.py:313-379 | a record exactly for readable cells of two or more lines; link, id, team names and goals as read, consistent, on the requested day, with no time and `''` for competition, season, round, team ids and half-time goals |
| PageElement.ScoreExample | sofascore_scraper.py:344-351 | the first score of a sample cell is 3 - 0, a home win |
| PageElement.SampleElement | sofascore_scraper.py:313-376 | the cell `Bayern\n3 - 0\nDortmund` without a link gives home Bayern, away Dortmund, goals 3 and 0, a win, and an empty id, link, competition, season and round |
| PageElement.ThreeLines | sofascore_scraper.py:334 | three newline-free lines joined by newlines split back into those three lines |
| Text.SplitFirst | sofascore_scraper.py:334 | a newline-free piece followed by the separator splits off as the first piece |
| Classifier.Coerce | sofascore_scraper.py:409-410 | falsy is 0; a number is itself; a truthy list or dict raises |
| Classifier.Compare | sofascore_scraper.py:412-417 | win, loss and draw exactly when home is above, below and equal to away |
| Classifier.DetermineResult | sofascore_scraper.py:406-419 | `""` exactly when a side cannot be converted; otherwise one of the three labels |
| Classifier.IntegerGoals | sofascore_scraper.py:412-417 | for integer goals the label is exactly the order of the two numbers |
| Classifier.SwapSides | sofascore_scraper.py:406-419 | swapping the sides swaps win and loss and keeps a draw or `""` |
| Classifier.DecimalStrings | sofascore_scraper.py:409-410 | goals written as decimal strings give the same label as the numbers |
| Classifier.PaddedDecimal | sofascore_scraper.py:409-410 | `int()` reads a decimal integer with spaces, tabs, newlines, \v, \f or \r on either side |
| Classifier.IntStripPadded | sofascore_scraper.py:409-410 | the whitespace `int()` skips (space and \t to \r, not the separators 0x1C-0x1F) is exactly what is removed around a literal |
| Classifier.SeparatorNotSkipped | sofascore_scraper.py:409-419 | a goal string starting with 0x1C cannot be read by `int()`, although `strip()` would remove it, so the label is `""` |
| Classifier.FalsyIsZero | sofascore_scraper.py:409-410 | a missing or empty goal value counts as 0 |
| Classifier.NonNumericString | sofascore_scraper.py:408-419 | a goal string holding a character other than digits, signs, `_` and `int()` whitespace makes the label `""` |
| Classifier.StringResultExamples | sofascore_scraper.py:406-419 | a missing home score loses to `"2"`; `" 1 "` draws with `True` |
| League.AnyLeagueIff | sofascore_scraper.py:503-506 | the loop answers true exactly when some league matches |
| League.IsTop5League | sofascore_scraper.py:489-506 | false for a falsy name, raises for a truthy non-string, else the loose match on the stripped lowercase name |
| League.Top5FilterDefined | sofascore_scraper.py:515 | the filter raises exactly when some competition is a truthy non-string |
| League.Top5FilterMembers | sofascore_scraper.py:515 | a record is kept exactly when it is stored and its league matches |
| League.Top5FilterAppend | sofascore_scraper.py:515 | the filter works record by record: filtering a concatenation concatenates the results, in order |
| League.Top5FilterSingle | sofascore_scraper.py:515 | a single record is kept, dropped or raises according to its league |
| League.PremierLeagueSeason | sofascore_scraper.py:502-505 | a capitalised name with a season suffix is the Premier League |
| League.LigaFragment | sofascore_scraper.py:504 | a name inside a league name matches too |
| League.ChampionshipIsNot | sofascore_scraper.py:29-36 | "Championship" is not a top-five league |
| League.BlankNameMatches | sofascore_scraper.py:499-505 | a whitespace-only name strips to `''`, which every league contains |
| League.FalsyAndNumericNames | sofascore_scraper.py:499-502 | `''` and `None` are not top-five leagues; a number raises |
| Calendar.NextDay | sofascore_scraper.py:484 | the next valid date, one day later; raises exactly at 9999-12-31 |
| Calendar.OrdinalOrder | sofascore_scraper.py:476 | comparing dates agrees with comparing their day counts |
| Calendar.NextDayNextWeekday | sofascore_scraper.py:88 | the day after falls on the next weekday, Sunday wrapping to Monday |
| Calendar.FirstDayIsMonday | sofascore_scraper.py:88 | 1 January of year 1 is a Monday |
| Calendar.ParseDate | sofascore_scraper.py:87 | what `strptime` accepts is a valid date |
| Calendar.ParseFormatted | sofascore_scraper.py:473-477 | parsing what `strftime` printed gives the date back |
| Calendar.WeekdayLabel | sofascore_scraper.py:76-88 | a label exactly for a parsable date, the name of its weekday |
| Calendar.LabelAdvances | sofascore_scraper.py:76-88 | the next day's label is the next name round the week |
| Calendar.DefaultStartIsFriday | sofascore_scraper.py:76-88 | 2025-12-05 is a Friday |
| Calendar.LeapDayWithoutZero | sofascore_scraper.py:87 | `2024-2-29` is accepted, a Thursday |
| Calendar.RejectedDates | sofascore_scraper.py:87 | 29 February of a common year, month 13 and trailing text are rejected |
| JsonValue.LookupFirstHit | sofascore_scraper.py:233-246 | `dict.get` finds the value of the first entry carrying the key |
| JsonValue.LookupMissing | sofascore_scraper.py:233-246 | a key no entry carries is missing, so `.get` gives its default |
| JsonValue.Lookup | sofascore_scraper.py:218-219 | present exactly when the key is, with an entry for that key |
| JsonValue.StrOfNumReadsBack | sofascore_scraper.py:282 | an integer rendered by an f-string reads back as the same integer |
| Text.IndexOfNone | sofascore_scraper.py:321-323 | `sep in s` is false exactly when no occurrence is found |
| Text.SplitLastNoSep | sofascore_scraper.py:322-324 | the last piece of a split holds no separator |
| Text.SplitLastAfterSep | sofascore_scraper.py:322-324 | the last piece of a split directly follows an occurrence of the separator |
| Text.StripPadded | sofascore_scraper.py:327 | `strip()` removes exactly the surrounding whitespace of a word |
| Text.IntToStringRoundTrip | sofascore_scraper.py:282 | `int(str(n)) == n` |

## Left out

- The Selenium driver (`_init_driver`, `driver.get`, `find_elements`, `execute_script`), the
  waits and `time.sleep`: what the browser answers is an input, a `Page`.
- `json.loads` and the JavaScript in the page: the script data arrives already parsed.
- `TimeoutException` while loading: it, like every other loading failure, is a page that did
  not load and gives `[]`.
- The local-time rendering of `strftime("%H:%M")` depends on the host's time zone; the
  record keeps the epoch seconds (`LocalTime`). Range errors of `fromtimestamp` are left out.
- Floating-point goal counts and timestamps: JSON numbers are integers here.
- `repr` escaping of strings inside lists and dicts, which only shapes `match_url` for slugs
  or ids that are containers.
- Unicode beyond ASCII in `lower()`, `strip()` and the regex's `\d` and `\s`; `int()`
  accepting underscores or Unicode digits.
- Dicts with a repeated key, which `json.loads` never produces (it keeps only the last
  value): lookups here take the first entry, and the event walk (`EventsInFields`) visits
  every entry under the repeated key.
- The outer `except` of `_extract_matches_from_page` (`sofascore_scraper.py:161-164`) cannot
  be reached once the driver's answers are inputs, since every inner failure is caught.
- `_parse_match_data_from_api` (`sofascore_scraper.py:90-120`) is never called.
- `_write_csv`, `save_to_csv`, `close` and `main`: CSV output and the command line.
- `print` output, and Python's recursion limit on deeply nested JSON.
- CPython's limit on converting between int and str (`sys.get_int_max_str_digits()`, 4300
  digits by default since 3.11 and in the 3.7-3.10 security releases): the model reads and
  writes integers of any length. So a goal string of more than 4300 digits coerces here but
  raises in CPython. The contracts of `Classifier.Coerce`, `Classifier.DecimalStrings`,
  `Classifier.PaddedDecimal` and `Classifier.DetermineResult` therefore hold only up to
  that length. The same goes for a score group of that length in a page cell
  (`PageElement.ParseMatchElement`) and for an id that long in the permalink f-string
  (`ApiEvent.MatchUrl`, `ApiEvent.PermalinkOfIntegerId`, `JsonValue.StrOfNumReadsBack`,
  `Text.IntToStringRoundTrip`). Where CPython raises, it gives
  the label `""` or no record.
- `strftime("%Y")` for years below 1000: the model writes four digits; some platforms do not.
- Scraper.SofaScoreScraper.ExtractFromApi: an `events` value that is a dict or a string is
  iterated by Python (keys or characters); each item then fails to parse, so the model
  gives `[]` directly.
