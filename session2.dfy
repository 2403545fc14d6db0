/** The session-2 script: Holbrook United's games of league 632 written as
    a calendar whose events carry the venue, the field assignment (bubble and
    quarter) and, when known, the final score. */
module Session2 {
  import opened Json
  import opened Teams
  import opened Games
  import opened StatIndex
  import opened StartOrder
  import opened Calendar
  import opened Preview

  const HolbrookId := "2586"
  const HolbrookName := "Holbrook United"

  const ResourceMap: map<string, string> := map["1" := "Bubble 1", "2" := "Bubble 2"]

  const ResourceAreaMap: map<string, string> := map[
    "1" := "Quarter 1A", "2" := "Quarter 1B", "3" := "Quarter 1C", "4" := "Quarter 1D",
    "5" := "Quarter 2A", "6" := "Quarter 2B", "7" := "Quarter 2C", "8" := "Quarter 2D"]

  const VenueAddress := "Union Point Sports Complex, 170 Memorial Grove Ave, Weymouth, MA 02190"
  const TeamPageUrl := "https://apps.daysmartrecreation.com/dash/x/#/online/unionpointsports/teams/2586"

  /** `RESOURCE_MAP.get(resource_id, f"Resource {resource_id}")` */
  function ResourceName(id: string): string {
    if id in ResourceMap then ResourceMap[id] else "Resource " + id
  }

  /** `RESOURCE_AREA_MAP.get(area_id, f"Area {area_id}")` */
  function AreaName(id: string): string {
    if id in ResourceAreaMap then ResourceAreaMap[id] else "Area " + id
  }

  /** Resources "1" and "2" are the two bubbles; any other id, including
      "None" for a missing one, falls back to "Resource {id}". */
  lemma ResourceNames(id: string)
    ensures id in ResourceMap <==> id == "1" || id == "2"
    ensures id in ResourceMap ==> ResourceName(id) == "Bubble " + id
    ensures id !in ResourceMap ==> ResourceName(id) == "Resource " + id
  {
  }

  /** Areas "1" to "8" are the quarters of the two bubbles: areas 1-4 are
      quarters A-D of bubble 1, areas 5-8 those of bubble 2.  Any other id
      falls back to "Area {id}". */
  lemma AreaNames(id: string)
    ensures id in ResourceAreaMap <==> |id| == 1 && '1' <= id[0] <= '8'
    ensures id in ResourceAreaMap ==>
              AreaName(id) == "Quarter " + [if id[0] <= '4' then '1' else '2']
                              + ["ABCD"[(id[0] as int - '1' as int) % 4]]
    ensures id !in ResourceAreaMap ==> AreaName(id) == "Area " + id
  {
    if |id| == 1 && '1' <= id[0] <= '8' {
      assert id == [id[0]];
    }
  }

  /** The DESCRIPTION text: the field assignment, the team page, and the
      final score when `if score:` holds. */
  function Notes(resourceName: string, areaName: string, score: Option<string>): string {
    "Field Assignment: " + resourceName + ": " + areaName + "\\n" + "Team Page: " + TeamPageUrl
    + (if score.Some? && score.value != "" then "\\nFinal Score: " + score.value else "")
  }

  /** `f"{hteam} vs {vteam}"` with both names through `safe_name`. */
  function Summary(ev: Record, teams: map<Scalar, string>): string {
    var attrs := AttrsOrEmpty(ev.attributes);
    SafeName(teams, Show(attrs.hteamId)) + " vs " + SafeName(teams, Show(attrs.vteamId))
  }

  /** The game's notes: its bubble and quarter, and its score if any. */
  function Description(ev: Record, scores: Index): string {
    var attrs := AttrsOrEmpty(ev.attributes);
    Notes(ResourceName(Show(attrs.resourceId)), AreaName(Show(attrs.resourceAreaId)), GetScore(ev, scores))
  }

  /** The block `write_ics` writes for one game, or the exception it raises
      before writing any of it. */
  function EventBlock(ev: Record, teams: map<Scalar, string>, scores: Index): Result<seq<string>> {
    var times := EventTimes(ev);
    if times.Err? then Err(times.error)
    else if ev.id.Missing? then Err(KeyError("id"))
    else
      Ok(EventLines(Show(ev.id), times.value.0, times.value.1, Summary(ev, teams),
                    ["LOCATION:" + VenueAddress, "DESCRIPTION:" + Description(ev, scores)]))
  }

  function EventOutcomes(events: seq<Record>, teams: map<Scalar, string>, scores: Index): seq<Result<seq<string>>> {
    Outcomes(events, ev => EventBlock(ev, teams, scores))
  }

  method WriteIcs(events: seq<Record>, teams: map<Scalar, string>, scores: Index)
    returns (lines: seq<string>, error: Option<Error>)
    ensures Written(lines, error) == Ics(EventOutcomes(events, teams, scores))
  {
    lines, error := WriteEvents(events, ev => EventBlock(ev, teams, scores));
  }

  /** A game's block is written exactly when it has attributes with string
      start and end times and an id; the block then has nine lines and
      opens once. */
  lemma EventBlockWritten(ev: Record, teams: map<Scalar, string>, scores: Index)
    ensures EventBlock(ev, teams, scores).Ok? <==>
              ev.attributes.Attrs? && ev.attributes.fields.start.Str? &&
              ev.attributes.fields.end.Str? && !ev.id.Missing?
    ensures EventBlock(ev, teams, scores).Ok? ==>
              |EventBlock(ev, teams, scores).value| == 9 &&
              Count(EventBlock(ev, teams, scores).value, "BEGIN:VEVENT") == 1
  {
    var b := EventBlock(ev, teams, scores);
    if b.Ok? {
      var times := EventTimes(ev);
      var extra := ["LOCATION:" + VenueAddress, "DESCRIPTION:" + Description(ev, scores)];
      assert extra[0][0] == 'L' && extra[1][0] == 'D';
      EventLinesDelimited(Show(ev.id), times.value.0, times.value.1, Summary(ev, teams), extra);
    }
  }

  /** What a written block says: the UID is the game id at the venue's
      domain, DTSTAMP is the compact start followed by "Z", DTSTART and
      DTEND are the compact start and end in New York time, the SUMMARY
      names both teams, LOCATION is the venue, DESCRIPTION the notes. */
  lemma EventBlockFields(ev: Record, teams: map<Scalar, string>, scores: Index)
    requires EventBlock(ev, teams, scores).Ok?
    ensures var l := EventBlock(ev, teams, scores).value;
            var start := Stamp(ev.attributes.fields.start.s);
            |l| == 9 &&
            l[0] == "BEGIN:VEVENT" &&
            l[1] == "UID:" + Show(ev.id) + UidDomain &&
            l[2] == "DTSTAMP:" + start + "Z" &&
            l[3] == "DTSTART;TZID=" + TimeZone + ":" + start &&
            l[4] == "DTEND;TZID=" + TimeZone + ":" + Stamp(ev.attributes.fields.end.s) &&
            l[5] == "SUMMARY:" + Summary(ev, teams) &&
            l[6] == "LOCATION:" + VenueAddress &&
            l[7] == "DESCRIPTION:" + Description(ev, scores) &&
            l[8] == "END:VEVENT"
  {
    var times := EventTimes(ev);
    var extra := ["LOCATION:" + VenueAddress, "DESCRIPTION:" + Description(ev, scores)];
    EventLinesFields(Show(ev.id), times.value.0, times.value.1, Summary(ev, teams), extra);
  }

  /** The description names the game's field, links the team page, and ends
      with the final score exactly when `get_score_for_event` found one. */
  lemma DescriptionShowsScore(ev: Record, scores: Index)
    ensures var attrs := AttrsOrEmpty(ev.attributes);
            var prefix := "Field Assignment: " + ResourceName(Show(attrs.resourceId)) + ": "
                          + AreaName(Show(attrs.resourceAreaId)) + "\\nTeam Page: " + TeamPageUrl;
            (GetScore(ev, scores).None? ==> Description(ev, scores) == prefix) &&
            (GetScore(ev, scores).Some? ==>
               Description(ev, scores) == prefix + "\\nFinal Score: " + GetScore(ev, scores).value)
  {
    var attrs := AttrsOrEmpty(ev.attributes);
    var res := ResourceName(Show(attrs.resourceId));
    var area := AreaName(Show(attrs.resourceAreaId));
    var head := "Field Assignment: " + res + ": " + area;
    assert head + "\\n" + "Team Page: " + TeamPageUrl == head + "\\nTeam Page: " + TeamPageUrl;
  }

  /** `data.get("included", []) or []`: a missing or null list reads as empty. */
  function IncludedOf(doc: Document): seq<Record> {
    if doc.included.Included? then doc.included.records else []
  }

  function PreviewFailures(games: seq<Record>, parses: string -> bool): seq<Option<Error>> {
    seq(|games|, i requires 0 <= i < |games| => TimesFailure(games[i], parses))
  }

  /** `main`: the exception of the first step that raises, or what
      `write_ics` leaves in the file. */
  function Run(doc: Document, parses: string -> bool): Result<Written> {
    var included := IncludedOf(doc);
    var teams := TeamMap(included, HolbrookId, HolbrookName);
    var games := FilterOutcome(included, HolbrookId);
    if games.Err? then Err(games.error)
    else
      var scores := IndexOutcome(included);
      if scores.Err? then Err(scores.error)
      else
        var sorted := SortOutcome(games.value);
        if sorted.Err? then Err(sorted.error)
        else
          var preview := FirstError(PreviewFailures(sorted.value, parses));
          if preview.Some? then Err(preview.value)
          else Ok(Ics(EventOutcomes(sorted.value, teams, scores.value)))
  }

  method GenerateCalendar(doc: Document, parses: string -> bool) returns (result: Result<Written>)
    ensures result == Run(doc, parses)
  {
    var included := IncludedOf(doc);
    var teams := BuildTeamMap(included, HolbrookId, HolbrookName);
    var games := FilterTeamEvents(included, HolbrookId);
    if games.Err? {
      return Err(games.error);
    }
    var scores := IndexStatEvents(included);
    if scores.Err? {
      return Err(scores.error);
    }
    var found := games.value;
    var a := new Record[|found|](i requires 0 <= i < |found| => found[i]);
    assert a[..] == found;
    var ok := SortByStart(a);
    SortOutcomeOk(found);
    if !ok {
      return Err(SortOutcome(found).error);
    }
    var sorted := a[..];
    var preview := FirstError(PreviewFailures(sorted, parses));
    if preview.Some? {
      return Err(preview.value);
    }
    var lines, error := WriteIcs(sorted, teams, scores.value);
    result := Ok(Written(lines, error));
  }

  /** The calendar of a list of games is complete exactly when every
      game's block can be built, and then it opens one VEVENT per game, in
      the order of the list, in 4 + 9n lines. */
  lemma CalendarOfGames(games: seq<Record>, teams: map<Scalar, string>, scores: Index)
    ensures var outcomes := EventOutcomes(games, teams, scores);
            (Ics(outcomes).error.None? <==> AllOk(outcomes)) &&
            (AllOk(outcomes) ==>
               Ics(outcomes).lines == Header + Concat(Values(outcomes)) + Footer &&
               |Ics(outcomes).lines| == 4 + 9 * |games| &&
               Count(Ics(outcomes).lines, "BEGIN:VEVENT") == |games|)
  {
    var outcomes := EventOutcomes(games, teams, scores);
    IcsComplete(outcomes);
    if AllOk(outcomes) {
      forall j | 0 <= j < |outcomes|
        ensures |outcomes[j].value| == 9 && Count(outcomes[j].value, "BEGIN:VEVENT") == 1
      {
        EventBlockWritten(games[j], teams, scores);
      }
      IcsCount(outcomes, "BEGIN:VEVENT");
      ConcatLength(Values(outcomes), 9);
    }
  }

  /** A run that gets as far as the writer writes the calendar of the
      Holbrook games in start order; when complete, it holds one VEVENT per
      game the filter found. */
  lemma RunWritesEveryGame(doc: Document, parses: string -> bool)
    requires Run(doc, parses).Ok?
    ensures var included := IncludedOf(doc);
            var games := SortedByStart(FilterGames(included, HolbrookId));
            var outcomes := EventOutcomes(games, TeamMap(included, HolbrookId, HolbrookName), ScoreIndex(included));
            Run(doc, parses).value == Ics(outcomes) &&
            (Run(doc, parses).value.error.None? ==>
               Count(Run(doc, parses).value.lines, "BEGIN:VEVENT") == |FilterGames(included, HolbrookId)|)
  {
    var included := IncludedOf(doc);
    var found := FilterGames(included, HolbrookId);
    var games := SortedByStart(found);
    SortOutcomeOk(found);
    CalendarOfGames(games, TeamMap(included, HolbrookId, HolbrookName), ScoreIndex(included));
    SortedByStartPermutes(found);
    assert |games| == |multiset(games)| == |multiset(found)| == |found|;
  }

  /** A document without games, whether its "included" list is empty,
      missing or null, yields a calendar of just the header and footer. */
  lemma EmptyDocumentWritesEmptyCalendar(doc: Document, parses: string -> bool)
    requires IncludedOf(doc) == []
    ensures Run(doc, parses) == Ok(Written(Header + Footer, None))
  {
    assert FilterOutcome([], HolbrookId) == Ok([]);
    assert IndexOutcome([]) == Ok(map[]);
    assert SortOutcome([]) == Ok([]);
    assert FirstError(PreviewFailures([], parses)) == None;
    assert EventOutcomes([], TeamMap([], HolbrookId, HolbrookName), map[]) == [];
    assert Header + [] + Footer == Header + Footer;
  }
}
