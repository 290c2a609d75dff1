/** The `SofaScoreScraper` object: its extraction methods, the per-date and date-range
    drivers, and the top-five filter over the matches it has stored. The browser is not
    modelled; what it answers arrives as a `Page` (for one date) or a site mapping each date
    string to its `Page`. */
module Scraper {
  import opened Wrappers
  import opened JsonValue
  import opened Calendar
  import opened Records
  import opened ApiEvent
  import opened PageElement
  import opened League
  import opened Extraction

  class SofaScoreScraper {
    /** `self.matches`: what the last completed date-range scrape gathered. */
    var matches: seq<MatchRecord>

    constructor()
      ensures matches == []
    {
      matches := [];
    }

    /** `find_events(obj, events_list)`: appends, in pre-order, the items of every
        list-valued `events` key found in `obj` to the list gathered so far. */
    static method FindEvents(obj: Json, gathered: seq<Json>) returns (out: seq<Json>)
      ensures out == gathered + Events(obj)
      decreases obj
    {
      match obj {
        case JObj(fields) =>
          out := gathered;
          var own := Lookup(fields, "events");
          if own.Some? && own.value.JArr? {
            out := out + own.value.items;
          }
          assert out == gathered + OwnEvents(fields);
          out := FindInValues(fields, out);
        case JArr(items) =>
          out := FindInItems(items, gathered);
        case _ =>
          out := gathered;
      }
    }

    /** `for value in obj.values(): find_events(value, events_list)`. */
    static method FindInValues(fields: seq<Field>, gathered: seq<Json>) returns (out: seq<Json>)
      ensures out == gathered + EventsInFields(fields)
      decreases fields
    {
      out := gathered;
      var i := 0;
      while i < |fields|
        invariant 0 <= i <= |fields|
        invariant out == gathered + EventsInFields(fields[..i])
      {
        assert fields[..i + 1][..i] == fields[..i];
        out := FindEvents(fields[i].value, out);
        i := i + 1;
      }
      assert fields[..|fields|] == fields;
    }

    /** `for item in obj: find_events(item, events_list)`. */
    static method FindInItems(items: seq<Json>, gathered: seq<Json>) returns (out: seq<Json>)
      ensures out == gathered + EventsInItems(items)
      decreases items
    {
      out := gathered;
      var i := 0;
      while i < |items|
        invariant 0 <= i <= |items|
        invariant out == gathered + EventsInItems(items[..i])
      {
        assert items[..i + 1][..i] == items[..i];
        out := FindEvents(items[i], out);
        i := i + 1;
      }
      assert items[..|items|] == items;
    }

    /** The loop shared by `_parse_json_match_data` and `_extract_from_api`: every event
        that `_parse_api_event` turns into a record is appended, in order. */
    static method ParseEvents(events: seq<Json>, date: string, weekday: string) returns (ms: seq<MatchRecord>)
      ensures ms == KeepParsed(events, date, weekday)
    {
      ms := [];
      var i := 0;
      while i < |events|
        invariant 0 <= i <= |events|
        invariant ms == KeepParsed(events[..i], date, weekday)
      {
        var m := ParseApiEvent(events[i], date, weekday);
        assert events[..i + 1] == events[..i] + [events[i]];
        KeepParsedSnoc(events[..i], events[i], date, weekday, m);
        if m.Some? {
          ms := ms + [m.value];
        }
        i := i + 1;
      }
      assert events[..|events|] == events;
    }

    /** `_parse_json_match_data(json_data, date, weekday)`. */
    method ParseJsonMatchData(jsonData: Json, date: string, weekday: string) returns (ms: seq<MatchRecord>)
      ensures ms == JsonMatches(jsonData, date, weekday)
    {
      var events := FindEvents(jsonData, []);
      assert events == Events(jsonData);
      ms := ParseEvents(events, date, weekday);
    }

    /** `_extract_from_api(date, weekday)`, given the value the in-page fetch returned. */
    method ExtractFromApi(data: Json, date: string, weekday: string) returns (ms: seq<MatchRecord>)
      ensures ms == ApiMatches(data, date, weekday)
    {
      ms := [];
      if data.JObj? && HasKey(data.fields, "events") {
        var events := Lookup(data.fields, "events").value;
        if events.JArr? {
          ms := ParseEvents(events.items, date, weekday);
        }
      }
    }

    /** `_extract_from_script_data(date, weekday)`, given the parsed blob (if any). */
    method ExtractFromScriptData(script: Option<Json>, date: string, weekday: string) returns (ms: seq<MatchRecord>)
      ensures ms == ScriptMatches(script, date, weekday)
    {
      ms := [];
      if script.Some? {
        ms := ParseJsonMatchData(script.value, date, weekday);
      }
    }

    /** `_extract_matches_from_page(date)`: `None` when the date has no weekday (the lookup
        raises before the `try`). */
    method ExtractMatchesFromPage(date: string, page: Page) returns (r: Option<seq<MatchRecord>>)
      ensures r.None? <==> WeekdayLabel(date).None?
      ensures r.Some? ==> r.value == PageMatches(date, WeekdayLabel(date).value, page)
    {
      var dayName := WeekdayLabel(date);
      if dayName.None? {
        return None;
      }
      var weekday := dayName.value;
      var matchElements: seq<Element> := [];
      var i := 0;
      while i < |EventSelectors|
        invariant 0 <= i <= |EventSelectors|
        invariant matchElements == []
        invariant FirstHit(EventSelectors, page.find) == FirstHit(EventSelectors[i..], page.find)
      {
        var found := page.find(EventSelectors[i]);
        if found.Some? && found.value != [] {
          assert EventSelectors[i..][0] == EventSelectors[i];
          matchElements := found.value;
          break;
        }
        assert EventSelectors[i..][1..] == EventSelectors[i + 1..];
        i := i + 1;
      }
      assert matchElements == FirstHit(EventSelectors, page.find);
      if matchElements == [] {
        var ms := ExtractFromScriptData(page.script, date, weekday);
        return Some(ms);
      }
      var ms: seq<MatchRecord> := [];
      var j := 0;
      while j < |matchElements|
        invariant 0 <= j <= |matchElements|
        invariant ms == ElementMatches(matchElements[..j], date, weekday)
      {
        assert matchElements[..j + 1][..j] == matchElements[..j];
        var m := ParseMatchElement(matchElements[j], date, weekday);
        if m.Some? {
          ms := ms + [m.value];
        }
        j := j + 1;
      }
      assert matchElements[..|matchElements|] == matchElements;
      return Some(ms);
    }

    /** `scrape_date(date)`: the API first, the page when the API yields nothing; `[]` when
        the page does not load or anything raises. */
    method ScrapeDate(date: string, page: Page) returns (ms: seq<MatchRecord>)
      ensures ms == DayMatches(date, page)
    {
      if !page.loaded {
        return [];
      }
      var dayName := WeekdayLabel(date);
      if dayName.None? {
        return [];
      }
      ms := ExtractFromApi(page.api, date, dayName.value);
      if ms == [] {
        var fromPage := ExtractMatchesFromPage(date, page);
        ms := fromPage.value;
      }
    }

    /** `scrape_date_range(start, end)`: scrapes every date from `start` to `end` in turn
        and stores the concatenated matches in `self.matches`. When a date does not parse,
        or the walk steps past 31 December 9999, the call raises (`None`) and the stored
        matches are left as they were. */
    method ScrapeDateRange(start: string, end: string, site: string -> Page) returns (r: Option<seq<MatchRecord>>)
      modifies this
      ensures r == RangeMatches(start, end, site)
      ensures r.Some? ==> matches == r.value
      ensures r.None? ==> matches == old(matches)
    {
      var first := ParseDate(start);
      if first.None? {
        return None;
      }
      var last := ParseDate(end);
      if last.None? {
        return None;
      }
      var a, b := first.value, last.value;
      var all: seq<MatchRecord> := [];
      var current := a;
      ghost var scrape := ScrapeOf(site);
      RangeSoFarStart(a, b, scrape);
      while !Before(b, current)
        invariant ValidDate(current)
        invariant RangeSoFar(a, b, current, all, scrape)
        invariant matches == old(matches)
        decreases if Before(b, current) then 0 else Ordinal(b) + 1 - Ordinal(current)
      {
        var dateStr := FormatDate(current);
        var day := ScrapeDate(dateStr, site(dateStr));
        var next := NextDay(current);
        if next.None? {
          RangeSoFarOverflow(a, b, all, scrape);
          return None;
        }
        RangeSoFarStep(a, b, current, all, scrape);
        all := all + day;
        OrdinalOrder(current, b);
        OrdinalOrder(next.value, b);
        current := next.value;
      }
      RangeSoFarDone(a, b, current, all, scrape);
      matches := all;
      return Some(all);
    }

    /** `get_top5_matches()`: the stored matches of the five big leagues, in order;
        `None` when a competition is a truthy non-string and the filter raises. */
    method GetTop5Matches() returns (r: Option<seq<MatchRecord>>)
      ensures r == Top5Filter(matches)
    {
      var kept: seq<MatchRecord> := [];
      var i := 0;
      while i < |matches|
        invariant 0 <= i <= |matches|
        invariant Top5Filter(matches[..i]) == Some(kept)
      {
        var m := matches[i];
        assert matches[..i + 1] == matches[..i] + [m];
        Top5FilterSnoc(matches[..i], m);
        var keep := IsTop5League(m.competition);
        if keep.None? {
          assert matches == matches[..i + 1] + matches[i + 1..];
          Top5FilterAppend(matches[..i + 1], matches[i + 1..]);
          return None;
        }
        if keep.value {
          kept := kept + [m];
        }
        i := i + 1;
      }
      assert matches[..|matches|] == matches;
      return Some(kept);
    }
  }
}
