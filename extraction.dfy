/** What the extraction strategies compute, as functions of the answers the browser gives:
    the walk that collects `events` lists from a JSON tree, the filter-maps that turn events
    and page elements into records, the order in which the strategies fall back on one
    another, and the day-by-day walk over a date range. The scraper's methods are proved
    against these functions. */
module Extraction {
  import opened Wrappers
  import opened Text
  import opened JsonValue
  import opened Calendar
  import opened Records
  import opened ApiEvent
  import opened PageElement
  import opened Classifier

  // ---------------------------------------------------------------------------
  // find_events

  /** The items of `obj['events']` when that is a list; nothing otherwise. */
  function OwnEvents(fields: seq<Field>): seq<Json> {
    match Lookup(fields, "events")
    case Some(JArr(items)) => items
    case _ => []
  }

  /** `find_events(obj, [])`: a dict contributes its own `events` list first and then what
      every value holds, in key order; a list what every item holds; a scalar nothing. */
  function Events(j: Json): seq<Json>
    decreases j
  {
    match j
    case JObj(fields) => OwnEvents(fields) + EventsInFields(fields)
    case JArr(items) => EventsInItems(items)
    case _ => []
  }

  function EventsInItems(items: seq<Json>): seq<Json>
    decreases items
  {
    if items == [] then [] else EventsInItems(items[..|items| - 1]) + Events(items[|items| - 1])
  }

  function EventsInFields(fields: seq<Field>): seq<Json>
    decreases fields
  {
    if fields == [] then []
    else EventsInFields(fields[..|fields| - 1]) + Events(fields[|fields| - 1].value)
  }

  /** The walk over a list is the walks over its parts, one after the other. */
  lemma {:induction false} EventsInItemsAppend(a: seq<Json>, b: seq<Json>)
    ensures EventsInItems(a + b) == EventsInItems(a) + EventsInItems(b)
    decreases |b|
  {
    if b == [] {
      assert a + b == a;
    } else {
      var init, last := b[..|b| - 1], b[|b| - 1];
      assert b == init + [last];
      assert a + b == (a + init) + [last];
      EventsInItemsAppend(a, init);
      EventsInItemsSnoc(a + init, last);
      EventsInItemsSnoc(init, last);
    }
  }

  lemma {:induction false} EventsInItemsSnoc(xs: seq<Json>, last: Json)
    ensures EventsInItems(xs + [last]) == EventsInItems(xs) + Events(last)
  {
    assert (xs + [last])[..|xs|] == xs;
  }

  /** The walk over a dict's values is the walks over its parts, one after the other. */
  lemma {:induction false} EventsInFieldsAppend(f: seq<Field>, g: seq<Field>)
    ensures EventsInFields(f + g) == EventsInFields(f) + EventsInFields(g)
    decreases |g|
  {
    if g == [] {
      assert f + g == f;
    } else {
      var init, last := g[..|g| - 1], g[|g| - 1];
      assert g == init + [last];
      assert f + g == (f + init) + [last];
      EventsInFieldsAppend(f, init);
      EventsInFieldsSnoc(f + init, last);
      EventsInFieldsSnoc(init, last);
    }
  }

  lemma {:induction false} EventsInFieldsSnoc(xs: seq<Field>, last: Field)
    ensures EventsInFields(xs + [last]) == EventsInFields(xs) + Events(last.value)
  {
    assert (xs + [last])[..|xs|] == xs;
  }

  /** The walk reaches every item of a list, in order: what item `k` holds sits between
      what the items before it and the items after it hold. */
  lemma {:induction false} EveryItemWalked(items: seq<Json>, k: nat)
    requires k < |items|
    ensures EventsInItems(items) ==
              EventsInItems(items[..k]) + Events(items[k]) + EventsInItems(items[k + 1..])
  {
    var p, x, q := items[..k], items[k], items[k + 1..];
    assert items == p + [x] + q;
    EventsInItemsAround(p, x, q);
  }

  lemma {:induction false} EventsInItemsAround(p: seq<Json>, x: Json, q: seq<Json>)
    ensures EventsInItems(p + [x] + q) == EventsInItems(p) + Events(x) + EventsInItems(q)
  {
    EventsInItemsAppend(p + [x], q);
    EventsInItemsSnoc(p, x);
  }

  /** The walk reaches every value of a dict, in key order, the `events` list included. */
  lemma {:induction false} EveryValueWalked(fields: seq<Field>, k: nat)
    requires k < |fields|
    ensures EventsInFields(fields) ==
              EventsInFields(fields[..k]) + Events(fields[k].value) + EventsInFields(fields[k + 1..])
  {
    var p, x, q := fields[..k], fields[k], fields[k + 1..];
    assert fields == p + [x] + q;
    EventsInFieldsAround(p, x, q);
  }

  lemma {:induction false} EventsInFieldsAround(p: seq<Field>, x: Field, q: seq<Field>)
    ensures EventsInFields(p + [x] + q) == EventsInFields(p) + Events(x.value) + EventsInFields(q)
  {
    EventsInFieldsAppend(p + [x], q);
    EventsInFieldsSnoc(p, x);
  }

  /** Pre-order: a dict's own `events` come before anything found below it. */
  lemma {:induction false} OwnEventsFirst(fields: seq<Field>, items: seq<Json>)
    requires Lookup(fields, "events") == Some(JArr(items))
    ensures Events(JObj(fields))[..|items|] == items
  {
  }

  /** An `events` list is collected and then walked itself, so events nested inside a
      collected event are collected as well, after it. */
  lemma {:induction false} EventsListWalkedAgain(items: seq<Json>)
    ensures Events(JObj([Field("events", JArr(items))])) == items + EventsInItems(items)
  {
    var f := [Field("events", JArr(items))];
    assert Lookup(f, "events") == Some(JArr(items));
    assert f[..0] == [];
    assert EventsInFields(f) == [] + Events(JArr(items));
  }

  /** A dict whose `events` value is not a list contributes nothing of its own, but the walk
      still looks inside that value. */
  lemma {:induction false} EventsNotAList(v: Json)
    requires !v.JArr?
    ensures Events(JObj([Field("events", v)])) == Events(v)
  {
    var f := [Field("events", v)];
    assert Lookup(f, "events") == Some(v);
    assert OwnEvents(f) == [];
    assert f[..0] == [];
    assert EventsInFields(f) == [] + Events(v);
  }

  // ---------------------------------------------------------------------------
  // Filter-maps

  /** The loops that append `f(x)` for every `x` whose result is not `None`, in order. */
  function Keep<T>(xs: seq<T>, f: T -> Option<MatchRecord>): (ms: seq<MatchRecord>)
    ensures |ms| <= |xs|
  {
    if xs == [] then []
    else
      var ms := Keep(xs[..|xs| - 1], f);
      var r := f(xs[|xs| - 1]);
      if r.Some? then ms + [r.value] else ms
  }

  /** The loop works element by element: keeping from a concatenation concatenates what is
      kept from each part, in order. */
  lemma {:induction false} KeepAppend<T>(a: seq<T>, b: seq<T>, f: T -> Option<MatchRecord>)
    ensures Keep(a + b, f) == Keep(a, f) + Keep(b, f)
    decreases |b|
  {
    if b == [] {
      assert a + b == a;
    } else {
      var init, last := b[..|b| - 1], b[|b| - 1];
      assert b == init + [last];
      assert a + b == (a + init) + [last];
      KeepAppend(a, init, f);
      KeepSnoc(a + init, last, f);
      KeepSnoc(init, last, f);
      var tail := if f(last).Some? then [f(last).value] else [];
      assert Keep(a, f) + Keep(init, f) + tail == Keep(a, f) + (Keep(init, f) + tail);
    }
  }

  /** Keeping from one more element at the end. */
  lemma {:induction false} KeepSnoc<T>(xs: seq<T>, x: T, f: T -> Option<MatchRecord>)
    ensures Keep(xs + [x], f) == Keep(xs, f) + (if f(x).Some? then [f(x).value] else [])
  {
    assert (xs + [x])[..|xs|] == xs;
  }

  /** One element gives its record when `f` gives one, and nothing otherwise. */
  lemma {:induction false} KeepSingle<T>(x: T, f: T -> Option<MatchRecord>)
    ensures Keep([x], f) == (if f(x).Some? then [f(x).value] else [])
  {
    assert [x][..0] == [];
  }

  /** The records kept are exactly the results `f` gives on the elements. */
  lemma {:induction false} KeepMembers<T>(xs: seq<T>, f: T -> Option<MatchRecord>, m: MatchRecord)
    ensures m in Keep(xs, f) <==> exists i :: 0 <= i < |xs| && f(xs[i]) == Some(m)
    decreases |xs|
  {
    if xs != [] {
      var init := xs[..|xs| - 1];
      KeepMembers(init, f, m);
      if exists i :: 0 <= i < |xs| && f(xs[i]) == Some(m) {
        var i :| 0 <= i < |xs| && f(xs[i]) == Some(m);
        if i < |init| {
          assert f(init[i]) == Some(m);
        }
      }
      if exists i :: 0 <= i < |init| && f(init[i]) == Some(m) {
        var i :| 0 <= i < |init| && f(init[i]) == Some(m);
        assert f(xs[i]) == Some(m);
      }
    }
  }

  /** `_parse_api_event` over the events, keeping the records. */
  function KeepParsed(events: seq<Json>, date: string, weekday: string): seq<MatchRecord> {
    Keep(events, e => ParseApiEvent(e, date, weekday))
  }

  /** One more event: its record, if it gives one, comes last. */
  lemma {:induction false} KeepParsedSnoc(events: seq<Json>, e: Json, date: string, weekday: string, r: Option<MatchRecord>)
    requires r == ParseApiEvent(e, date, weekday)
    ensures KeepParsed(events + [e], date, weekday)
         == KeepParsed(events, date, weekday) + (if r.Some? then [r.value] else [])
  {
    KeepSnoc(events, e, e => ParseApiEvent(e, date, weekday));
  }

  /** Every record the API path keeps describes a finished match of the date asked for,
      with its result matching its goals. */
  lemma {:induction false} ParsedRecordsConsistent(events: seq<Json>, date: string, weekday: string, m: MatchRecord)
    requires m in KeepParsed(events, date, weekday)
    ensures Consistent(m) && OnDay(m, date, weekday)
  {
    var f := e => ParseApiEvent(e, date, weekday);
    KeepMembers(events, f, m);
    var i :| 0 <= i < |events| && f(events[i]) == Some(m);
    assert ParseApiEvent(events[i], date, weekday) == Some(m);
    ParseApiEventShape(events[i], date, weekday);
  }

  /** `_parse_match_element` over the elements, skipping those that give nothing. */
  function ElementMatches(elems: seq<Element>, date: string, weekday: string): seq<MatchRecord> {
    Keep(elems, e => ParseMatchElement(e, date, weekday))
  }

  /** Every record the page path keeps describes a finished match of the date asked for,
      with its result matching its goals. */
  lemma {:induction false} ElementRecordsConsistent(elems: seq<Element>, date: string, weekday: string, m: MatchRecord)
    requires m in ElementMatches(elems, date, weekday)
    ensures Consistent(m) && OnDay(m, date, weekday) && m.time == NoTime
  {
    var f := e => ParseMatchElement(e, date, weekday);
    KeepMembers(elems, f, m);
    var i :| 0 <= i < |elems| && f(elems[i]) == Some(m);
    assert ParseMatchElement(elems[i], date, weekday) == Some(m);
  }

  /** Elements that cannot be read, or hold a single line of text, give no record. */
  lemma {:induction false} UnreadableElements(elems: seq<Element>, date: string, weekday: string)
    requires forall k :: 0 <= k < |elems| ==> elems[k].Detached? || '\n' !in Strip(elems[k].text)
    ensures ElementMatches(elems, date, weekday) == []
  {
    var ms := ElementMatches(elems, date, weekday);
    if ms != [] {
      var f := e => ParseMatchElement(e, date, weekday);
      KeepMembers(elems, f, ms[0]);
      assert false;
    }
  }

  // ---------------------------------------------------------------------------
  // The three strategies

  /** `_parse_json_match_data(json_data, date, weekday)`. */
  function JsonMatches(j: Json, date: string, weekday: string): seq<MatchRecord> {
    KeepParsed(Events(j), date, weekday)
  }

  /** `_extract_from_api`: the events of the answer when it is a dict whose `events` value
      is a list. Any other `events` value yields nothing: iterating a dict or a string gives
      strings, which do not parse, and iterating anything else raises. An answer without
      `events` (the fetch failed, or it is not a dict) yields nothing. */
  function ApiMatches(data: Json, date: string, weekday: string): (ms: seq<MatchRecord>)
    ensures !data.JObj? || !HasKey(data.fields, "events") ==> ms == []
    ensures data.JObj? ==> ms == KeepParsed(OwnEvents(data.fields), date, weekday)
  {
    if data.JObj? then KeepParsed(OwnEvents(data.fields), date, weekday) else []
  }

  /** An answer holding the finished Arsenal-Chelsea match and one still in progress gives
      exactly one record: the home win, 2-1. */
  lemma {:induction false} ApiScenario(date: string, weekday: string)
    ensures var live := JObj([Field("status", JObj([Field("type", JStr("inprogress"))]))]);
            var ms := ApiMatches(JObj([Field("events", JArr([ArsenalChelsea, live]))]), date, weekday);
            && |ms| == 1 && ms[0].homeTeam == JStr("Arsenal") && ms[0].awayTeam == JStr("Chelsea")
            && ms[0].homeGoals == JNum(2) && ms[0].awayGoals == JNum(1) && ms[0].result == Win
  {
    var live := JObj([Field("status", JObj([Field("type", JStr("inprogress"))]))]);
    var events := [ArsenalChelsea, live];
    assert OwnEvents([Field("events", JArr(events))]) == events;
    var won := ParseApiEvent(ArsenalChelsea, date, weekday);
    HomeWinExample(date, weekday);
    UnfinishedExample([], date, weekday);
    assert [Field("status", JObj([Field("type", JStr("inprogress"))]))] + [] == live.fields;
    KeepParsedSnoc([], ArsenalChelsea, date, weekday, won);
    KeepParsedSnoc([ArsenalChelsea], live, date, weekday, None);
    assert [] + [ArsenalChelsea] == [ArsenalChelsea] && [ArsenalChelsea] + [live] == events;
  }

  /** The CSS selectors `_extract_matches_from_page` tries, in order. */
  const EventSelectors: seq<string> :=
    ["a[data-testid='event_cell']", "div[class*='event']", "a[href*='/football/']"]

  /** A selector gave elements to work with: it did not raise and found some. */
  predicate Hit(found: Option<seq<Element>>) {
    found.Some? && found.value != []
  }

  /** The elements of the first selector that finds any; `[]` when none does. */
  function FirstHit(sels: seq<string>, find: string -> Option<seq<Element>>): seq<Element> {
    if sels == [] then []
    else if Hit(find(sels[0])) then find(sels[0]).value
    else FirstHit(sels[1..], find)
  }

  /** The selector loop stops at the first selector that finds elements: the later ones
      never matter. */
  lemma {:induction false} FirstHitIsFirst(sels: seq<string>, find: string -> Option<seq<Element>>, k: nat)
    requires k < |sels| && Hit(find(sels[k]))
    requires forall j :: 0 <= j < k ==> !Hit(find(sels[j]))
    ensures FirstHit(sels, find) == find(sels[k]).value
    decreases k
  {
    if k > 0 {
      FirstHitIsFirst(sels[1..], find, k - 1);
    }
  }

  /** No elements come back exactly when no selector finds any. */
  lemma {:induction false} FirstHitMisses(sels: seq<string>, find: string -> Option<seq<Element>>)
    ensures FirstHit(sels, find) == [] <==> forall j :: 0 <= j < |sels| ==> !Hit(find(sels[j]))
    decreases |sels|
  {
    if sels != [] {
      FirstHitMisses(sels[1..], find);
      assert forall j :: 1 <= j < |sels| ==> sels[j] == sels[1..][j - 1];
    }
  }

  /** The script strategy: the parsed JSON blob of the page, `None` when there is none or
      it does not parse (`json.loads` raises, and the error is caught). */
  function ScriptMatches(script: Option<Json>, date: string, weekday: string): seq<MatchRecord> {
    match script
    case None => []
    case Some(j) => JsonMatches(j, date, weekday)
  }

  /** What the browser answers for one date's page. `loaded` is false when `driver.get`
      raises; `api` is what the in-page fetch of the scheduled-events endpoint returns;
      `find` gives the elements a CSS selector finds (`None` when the lookup raises);
      `script` is the embedded JSON blob, parsed. */
  datatype Page = Page(
    loaded: bool,
    api: Json,
    find: string -> Option<seq<Element>>,
    script: Option<Json>)

  /** `_extract_matches_from_page` once the weekday is known: the elements of the first
      selector that finds any, else the script blob. */
  function PageMatches(date: string, weekday: string, page: Page): seq<MatchRecord> {
    var elems := FirstHit(EventSelectors, page.find);
    if elems == [] then ScriptMatches(page.script, date, weekday)
    else ElementMatches(elems, date, weekday)
  }

  /** `scrape_date(date)`: nothing when the page does not load or the date is not a date
      (the weekday lookup raises); otherwise the API's records, and the page's when the API
      gives none. */
  function DayMatches(date: string, page: Page): (ms: seq<MatchRecord>)
    ensures !page.loaded || WeekdayLabel(date).None? ==> ms == []
  {
    if !page.loaded then []
    else
      match WeekdayLabel(date)
      case None => []
      case Some(weekday) =>
        var api := ApiMatches(page.api, date, weekday);
        if api != [] then api else PageMatches(date, weekday, page)
  }

  /** Whichever strategy produced them, the records of a date describe finished matches of
      that date, labelled with its weekday, with results matching their goals. */
  lemma {:induction false} ScrapedRecordsConsistent(date: string, page: Page, m: MatchRecord)
    requires m in DayMatches(date, page)
    ensures WeekdayLabel(date).Some?
    ensures Consistent(m) && OnDay(m, date, WeekdayLabel(date).value)
  {
    var weekday := WeekdayLabel(date).value;
    if m in ApiMatches(page.api, date, weekday) {
      ParsedRecordsConsistent(OwnEvents(page.api.fields), date, weekday, m);
    } else if FirstHit(EventSelectors, page.find) == [] {
      ParsedRecordsConsistent(Events(page.script.value), date, weekday, m);
    } else {
      ElementRecordsConsistent(FirstHit(EventSelectors, page.find), date, weekday, m);
    }
  }

  /** The page is consulted only when the API yields nothing. */
  lemma {:induction false} ApiFirst(date: string, weekday: string, page: Page)
    requires page.loaded && WeekdayLabel(date) == Some(weekday)
    ensures ApiMatches(page.api, date, weekday) != [] ==>
              DayMatches(date, page) == ApiMatches(page.api, date, weekday)
    ensures ApiMatches(page.api, date, weekday) == [] ==>
              DayMatches(date, page) == PageMatches(date, weekday, page)
  {
  }

  // ---------------------------------------------------------------------------
  // scrape_date_range

  /** The dates `scrape_date_range` visits from `a` to `b`; `None` when the walk passes
      31 December 9999, where adding a day raises OverflowError. */
  function Visit(a: Date, b: Date): (r: Option<seq<Date>>)
    requires ValidDate(a) && ValidDate(b)
    decreases Ordinal(b) + 1 - Ordinal(a)
  {
    OrdinalOrder(a, b);
    if Before(b, a) then Some([])
    else
      match NextDay(a)
      case None => None
      case Some(n) =>
        var rest :- Visit(n, b);
        Some([a] + rest)
  }

  /** The walk raises exactly when it would step past the last representable day. */
  lemma {:induction false} VisitFails(a: Date, b: Date)
    requires ValidDate(a) && ValidDate(b)
    ensures Visit(a, b).None? <==> !Before(b, a) && b == MaxDate
    decreases Ordinal(b) + 1 - Ordinal(a)
  {
    OrdinalOrder(a, b);
    if !Before(b, a) && a != MaxDate {
      var n := NextDay(a).value;
      OrdinalOrder(n, b);
      VisitFails(n, b);
      assert !Before(MaxDate, n);
    }
  }

  /** The walk visits every day from `a` to `b` once, in ascending order: the `k`-th date
      visited is `k` days after `a`, and the last one is `b`. */
  lemma {:induction false} VisitDays(a: Date, b: Date)
    requires ValidDate(a) && ValidDate(b) && Visit(a, b).Some?
    ensures var ds := Visit(a, b).value;
            |ds| == (if Before(b, a) then 0 else Ordinal(b) - Ordinal(a) + 1)
            && (forall k :: 0 <= k < |ds| ==> ValidDate(ds[k]) && Ordinal(ds[k]) == Ordinal(a) + k)
            && (ds != [] ==> ds[|ds| - 1] == b)
    decreases Ordinal(b) + 1 - Ordinal(a)
  {
    OrdinalOrder(a, b);
    if !Before(b, a) {
      var n := NextDay(a).value;
      OrdinalOrder(n, b);
      VisitDays(n, b);
      var ds := Visit(a, b).value;
      var rest := Visit(n, b).value;
      assert ds == [a] + rest;
      if rest == [] {
        assert Ordinal(a) == Ordinal(b);
      }
    }
  }

  /** What scraping one formatted date gives: `scrape_date` on the page the site serves. */
  function ScrapeOf(site: string -> Page): string -> seq<MatchRecord> {
    d => DayMatches(d, site(d))
  }

  /** The matches of a run of dates, the dates' own lists concatenated in order. */
  function DaysMatches(ds: seq<Date>, scrape: string -> seq<MatchRecord>): seq<MatchRecord>
    requires forall k :: 0 <= k < |ds| ==> ValidDate(ds[k])
  {
    if ds == [] then [] else scrape(FormatDate(ds[0])) + DaysMatches(ds[1..], scrape)
  }

  /** The loop of `scrape_date_range` from `current` on: each date is formatted, scraped,
      and its matches appended. */
  function RangeFrom(current: Date, end: Date, scrape: string -> seq<MatchRecord>): Option<seq<MatchRecord>>
    requires ValidDate(current) && ValidDate(end)
    decreases Ordinal(end) + 1 - Ordinal(current)
  {
    OrdinalOrder(current, end);
    if Before(end, current) then Some([])
    else
      match NextDay(current)
      case None => None
      case Some(n) =>
        var rest :- RangeFrom(n, end, scrape);
        Some(scrape(FormatDate(current)) + rest)
  }

  /** The loop's result is the matches of the visited dates, concatenated in the order the
      dates are visited. */
  lemma {:induction false} RangeIsVisit(current: Date, end: Date, scrape: string -> seq<MatchRecord>)
    requires ValidDate(current) && ValidDate(end)
    ensures Visit(current, end).None? <==> RangeFrom(current, end, scrape).None?
    ensures Visit(current, end).Some? ==>
              (forall k :: 0 <= k < |Visit(current, end).value| ==> ValidDate(Visit(current, end).value[k]))
              && RangeFrom(current, end, scrape).value == DaysMatches(Visit(current, end).value, scrape)
    decreases Ordinal(end) + 1 - Ordinal(current)
  {
    OrdinalOrder(current, end);
    if !Before(end, current) && current != MaxDate {
      var n := NextDay(current).value;
      RangeIsVisit(n, end, scrape);
      if Visit(n, end).Some? {
        var ds := Visit(current, end).value;
        assert ds == [current] + Visit(n, end).value;
        assert ds[1..] == Visit(n, end).value;
      }
    }
  }

  /** The matches `ms` already gathered, followed by the outcome of the rest of the walk. */
  function Prepend(ms: seq<MatchRecord>, rest: Option<seq<MatchRecord>>): Option<seq<MatchRecord>> {
    match rest
    case None => None
    case Some(tail) => Some(ms + tail)
  }

  /** One turn of the loop: the date's matches, then the rest of the walk; past the last
      representable day the walk raises. */
  lemma {:induction false} RangeStep(current: Date, end: Date, scrape: string -> seq<MatchRecord>)
    requires ValidDate(current) && ValidDate(end) && !Before(end, current)
    ensures current == MaxDate ==> RangeFrom(current, end, scrape).None?
    ensures current != MaxDate ==>
              RangeFrom(current, end, scrape) ==
                Prepend(scrape(FormatDate(current)), RangeFrom(NextDay(current).value, end, scrape))
  {
  }

  /** The walk from a date past the end gathers nothing. */
  lemma {:induction false} RangeDone(current: Date, end: Date, scrape: string -> seq<MatchRecord>)
    requires ValidDate(current) && ValidDate(end) && Before(end, current)
    ensures RangeFrom(current, end, scrape) == Some([])
  {
  }

  /** What the loop of `scrape_date_range` keeps: the whole walk is what has been gathered
      so far followed by the walk from the current date. */
  predicate RangeSoFar(a: Date, end: Date, current: Date, gathered: seq<MatchRecord>,
                       scrape: string -> seq<MatchRecord>)
    requires ValidDate(a) && ValidDate(end) && ValidDate(current)
  {
    RangeFrom(a, end, scrape) == Prepend(gathered, RangeFrom(current, end, scrape))
  }

  /** Before the first turn nothing has been gathered. */
  lemma {:induction false} RangeSoFarStart(a: Date, end: Date, scrape: string -> seq<MatchRecord>)
    requires ValidDate(a) && ValidDate(end)
    ensures RangeSoFar(a, end, a, [], scrape)
  {
    var whole := RangeFrom(a, end, scrape);
    if whole.Some? {
      assert [] + whole.value == whole.value;
    }
  }

  /** A turn of the loop keeps the invariant. */
  lemma {:induction false} RangeSoFarStep(a: Date, end: Date, current: Date, gathered: seq<MatchRecord>,
                       scrape: string -> seq<MatchRecord>)
    requires ValidDate(a) && ValidDate(end) && ValidDate(current) && !Before(end, current)
    requires current != MaxDate && RangeSoFar(a, end, current, gathered, scrape)
    ensures RangeSoFar(a, end, NextDay(current).value, gathered + scrape(FormatDate(current)), scrape)
  {
    RangeStep(current, end, scrape);
    var more, rest := scrape(FormatDate(current)), RangeFrom(NextDay(current).value, end, scrape);
    if rest.Some? {
      assert gathered + (more + rest.value) == (gathered + more) + rest.value;
    }
  }

  /** Stepping past the last representable day makes the whole walk raise. */
  lemma {:induction false} RangeSoFarOverflow(a: Date, end: Date, gathered: seq<MatchRecord>,
                           scrape: string -> seq<MatchRecord>)
    requires ValidDate(a) && ValidDate(end) && !Before(end, MaxDate)
    requires RangeSoFar(a, end, MaxDate, gathered, scrape)
    ensures RangeFrom(a, end, scrape).None?
  {
    RangeStep(MaxDate, end, scrape);
  }

  /** When the loop ends, what has been gathered is the whole walk. */
  lemma {:induction false} RangeSoFarDone(a: Date, end: Date, current: Date, gathered: seq<MatchRecord>,
                       scrape: string -> seq<MatchRecord>)
    requires ValidDate(a) && ValidDate(end) && ValidDate(current) && Before(end, current)
    requires RangeSoFar(a, end, current, gathered, scrape)
    ensures RangeFrom(a, end, scrape) == Some(gathered)
  {
    RangeDone(current, end, scrape);
    assert gathered + [] == gathered;
  }

  /** `scrape_date_range(start, end)`: `None` when either date does not parse or the walk
      overflows. */
  function RangeMatches(start: string, end: string, site: string -> Page): (r: Option<seq<MatchRecord>>)
    ensures ParseDate(start).None? || ParseDate(end).None? ==> r.None?
  {
    match (ParseDate(start), ParseDate(end))
    case (Some(a), Some(b)) => RangeFrom(a, b, ScrapeOf(site))
    case _ => None
  }

  /** The range's matches are those of the dates the walk visits, each scraped on its own
      page, concatenated in the order visited. */
  lemma {:induction false} RangeMatchesVisit(start: string, end: string, site: string -> Page)
    requires ParseDate(start).Some? && ParseDate(end).Some?
    ensures var a, b := ParseDate(start).value, ParseDate(end).value;
            (RangeMatches(start, end, site).Some? <==> Visit(a, b).Some?)
            && (Visit(a, b).Some? ==>
                  (forall k :: 0 <= k < |Visit(a, b).value| ==> ValidDate(Visit(a, b).value[k]))
                  && RangeMatches(start, end, site).value == DaysMatches(Visit(a, b).value, ScrapeOf(site)))
  {
    RangeIsVisit(ParseDate(start).value, ParseDate(end).value, ScrapeOf(site));
  }

  /** A range whose start lies after its end visits nothing. */
  lemma {:induction false} EmptyRange(a: Date, b: Date, site: string -> Page)
    requires ValidDate(a) && ValidDate(b) && Before(b, a)
    ensures RangeMatches(FormatDate(a), FormatDate(b), site) == Some([])
  {
    ParseFormatted(a);
    ParseFormatted(b);
    RangeDone(a, b, ScrapeOf(site));
  }

  /** A one-day range is that day's scrape. */
  lemma {:induction false} SingleDay(a: Date, site: string -> Page)
    requires ValidDate(a) && a != MaxDate
    ensures var d := FormatDate(a); RangeMatches(d, d, site) == Some(DayMatches(d, site(d)))
  {
    ParseFormatted(a);
    var n := NextDay(a).value;
    OrdinalOrder(n, a);
    RangeDone(n, a, ScrapeOf(site));
    RangeStep(a, a, ScrapeOf(site));
    var d := FormatDate(a);
    assert DayMatches(d, site(d)) + [] == DayMatches(d, site(d));
  }
}
