/** The Bulldogs script: the (U10G) HAYSA Bulldogs' games of league 547
    written as a plain calendar, one event per game with its time and
    matchup only. */
module Bulldogs {
  import opened Json
  import opened Teams
  import opened Games
  import opened StartOrder
  import opened Calendar
  import opened Preview

  const BulldogsId := "2368"
  const BulldogsName := "(U10G) HAYSA Bulldogs"

  /** `str(attrs[key])`: unlike `attrs.get(key)`, a missing key raises. */
  function Required(v: Scalar, key: string): Result<string> {
    if v.Missing? then Err(KeyError(key)) else Ok(Show(v))
  }

  /** The block `write_ics` writes for one game, or the exception it raises
      before writing any of it. */
  function EventBlock(ev: Record, teams: map<Scalar, string>): Result<seq<string>> {
    var times := EventTimes(ev);
    if times.Err? then Err(times.error)
    else
      var attrs := AttrsOrEmpty(ev.attributes);
      var home := Required(attrs.hteamId, "hteam_id");
      var away := Required(attrs.vteamId, "vteam_id");
      if home.Err? then Err(home.error)
      else if away.Err? then Err(away.error)
      else if ev.id.Missing? then Err(KeyError("id"))
      else
        Ok(EventLines(Show(ev.id), times.value.0, times.value.1,
                      SafeName(teams, home.value) + " vs " + SafeName(teams, away.value), []))
  }

  function EventOutcomes(events: seq<Record>, teams: map<Scalar, string>): seq<Result<seq<string>>> {
    Outcomes(events, ev => EventBlock(ev, teams))
  }

  method WriteIcs(events: seq<Record>, teams: map<Scalar, string>)
    returns (lines: seq<string>, error: Option<Error>)
    ensures Written(lines, error) == Ics(EventOutcomes(events, teams))
  {
    lines, error := WriteEvents(events, ev => EventBlock(ev, teams));
  }

  /** A game's block is written exactly when it has attributes with string
      start and end times, both team ids and an id; the block then has seven
      lines and opens once. */
  lemma EventBlockWritten(ev: Record, teams: map<Scalar, string>)
    ensures EventBlock(ev, teams).Ok? <==>
              ev.attributes.Attrs? && ev.attributes.fields.start.Str? && ev.attributes.fields.end.Str? &&
              !ev.attributes.fields.hteamId.Missing? && !ev.attributes.fields.vteamId.Missing? &&
              !ev.id.Missing?
    ensures EventBlock(ev, teams).Ok? ==>
              |EventBlock(ev, teams).value| == 7 &&
              Count(EventBlock(ev, teams).value, "BEGIN:VEVENT") == 1
  {
    var b := EventBlock(ev, teams);
    if b.Ok? {
      var times := EventTimes(ev);
      var attrs := ev.attributes.fields;
      var summary := SafeName(teams, Show(attrs.hteamId)) + " vs " + SafeName(teams, Show(attrs.vteamId));
      EventLinesDelimited(Show(ev.id), times.value.0, times.value.1, summary, []);
    }
  }

  /** What a written block says: UID, DTSTAMP (the compact start and "Z"),
      DTSTART and DTEND in New York time, and the SUMMARY naming both teams,
      between BEGIN and END; there is no LOCATION and no DESCRIPTION. */
  lemma EventBlockFields(ev: Record, teams: map<Scalar, string>)
    requires EventBlock(ev, teams).Ok?
    ensures var l := EventBlock(ev, teams).value;
            var start := Stamp(ev.attributes.fields.start.s);
            |l| == 7 &&
            l[0] == "BEGIN:VEVENT" &&
            l[1] == "UID:" + Show(ev.id) + UidDomain &&
            l[2] == "DTSTAMP:" + start + "Z" &&
            l[3] == "DTSTART;TZID=" + TimeZone + ":" + start &&
            l[4] == "DTEND;TZID=" + TimeZone + ":" + Stamp(ev.attributes.fields.end.s) &&
            l[5] == "SUMMARY:" + (SafeName(teams, Show(ev.attributes.fields.hteamId)) + " vs "
                                 + SafeName(teams, Show(ev.attributes.fields.vteamId))) &&
            l[6] == "END:VEVENT"
  {
    var times := EventTimes(ev);
    var attrs := ev.attributes.fields;
    var summary := SafeName(teams, Show(attrs.hteamId)) + " vs " + SafeName(teams, Show(attrs.vteamId));
    EventLinesFields(Show(ev.id), times.value.0, times.value.1, summary, []);
  }

  /** `data.get("included", [])`: a missing list reads as empty, but a null
      one is handed on and fails the first loop over it. */
  function IncludedOf(doc: Document): Result<seq<Record>> {
    match doc.included
    case NoIncluded => Ok([])
    case NullIncluded => Err(TypeError("'NoneType' object is not iterable"))
    case Included(records) => Ok(records)
  }

  /** The preview reads both times and then `attrs["hteam_id"]` and
      `attrs["vteam_id"]`. */
  function PreviewFailure(ev: Record, parses: string -> bool): Option<Error> {
    var times := TimesFailure(ev, parses);
    if times.Some? then times
    else
      var attrs := AttrsOrEmpty(ev.attributes);
      if attrs.hteamId.Missing? then Some(KeyError("hteam_id"))
      else if attrs.vteamId.Missing? then Some(KeyError("vteam_id"))
      else None
  }

  function PreviewFailures(games: seq<Record>, parses: string -> bool): seq<Option<Error>> {
    seq(|games|, i requires 0 <= i < |games| => PreviewFailure(games[i], parses))
  }

  /** `main`: the exception of the first step that raises, or what
      `write_ics` leaves in the file. */
  function Run(doc: Document, parses: string -> bool): Result<Written> {
    var included := IncludedOf(doc);
    if included.Err? then Err(included.error)
    else
      var teams := TeamMap(included.value, BulldogsId, BulldogsName);
      var games := FilterOutcome(included.value, BulldogsId);
      if games.Err? then Err(games.error)
      else
        var sorted := SortOutcome(games.value);
        if sorted.Err? then Err(sorted.error)
        else
          var preview := FirstError(PreviewFailures(sorted.value, parses));
          if preview.Some? then Err(preview.value)
          else Ok(Ics(EventOutcomes(sorted.value, teams)))
  }

  method GenerateCalendar(doc: Document, parses: string -> bool) returns (result: Result<Written>)
    ensures result == Run(doc, parses)
  {
    var included := IncludedOf(doc);
    if included.Err? {
      return Err(included.error);
    }
    var teams := BuildTeamMap(included.value, BulldogsId, BulldogsName);
    var games := FilterTeamEvents(included.value, BulldogsId);
    if games.Err? {
      return Err(games.error);
    }
    var found := games.value;
    var a := new Record[|found|](i requires 0 <= i < |found| => found[i]);
    assert a[..] == found;
    var ok := SortByStart(a);
    SortOutcomeOk(found);
    if !ok {
      return Err(SortOutcome(found).error);
    }
    var sorted := a[..];
    var preview := FirstError(PreviewFailures(sorted, parses));
    if preview.Some? {
      return Err(preview.value);
    }
    var lines, error := WriteIcs(sorted, teams);
    result := Ok(Written(lines, error));
  }

  /** Once the preview has passed, every game's block can be built: the
      preview reads the same keys the writer needs, except the game id. */
  lemma PreviewGuardsWriter(ev: Record, teams: map<Scalar, string>, parses: string -> bool)
    requires PreviewFailure(ev, parses).None?
    ensures EventBlock(ev, teams).Ok? <==> !ev.id.Missing?
  {
    EventBlockWritten(ev, teams);
  }

  /** The calendar of a list of games is complete exactly when every
      game's block can be built, and then it opens one VEVENT per game in
      4 + 7n lines. */
  lemma CalendarOfGames(games: seq<Record>, teams: map<Scalar, string>)
    ensures var outcomes := EventOutcomes(games, teams);
            (Ics(outcomes).error.None? <==> AllOk(outcomes)) &&
            (AllOk(outcomes) ==>
               Ics(outcomes).lines == Header + Concat(Values(outcomes)) + Footer &&
               |Ics(outcomes).lines| == 4 + 7 * |games| &&
               Count(Ics(outcomes).lines, "BEGIN:VEVENT") == |games|)
  {
    var outcomes := EventOutcomes(games, teams);
    IcsComplete(outcomes);
    if AllOk(outcomes) {
      forall j | 0 <= j < |outcomes|
        ensures |outcomes[j].value| == 7 && Count(outcomes[j].value, "BEGIN:VEVENT") == 1
      {
        EventBlockWritten(games[j], teams);
      }
      IcsCount(outcomes, "BEGIN:VEVENT");
      ConcatLength(Values(outcomes), 7);
    }
  }

  /** A run that gets as far as the writer writes the calendar of the
      Bulldogs games in start order; when complete, it holds one VEVENT per
      game the filter found. */
  lemma RunWritesEveryGame(doc: Document, parses: string -> bool)
    requires Run(doc, parses).Ok?
    ensures IncludedOf(doc).Ok?
    ensures var included := IncludedOf(doc).value;
            var games := SortedByStart(FilterGames(included, BulldogsId));
            var outcomes := EventOutcomes(games, TeamMap(included, BulldogsId, BulldogsName));
            Run(doc, parses).value == Ics(outcomes) &&
            (Run(doc, parses).value.error.None? ==>
               Count(Run(doc, parses).value.lines, "BEGIN:VEVENT") == |FilterGames(included, BulldogsId)|)
  {
    var included := IncludedOf(doc).value;
    var found := FilterGames(included, BulldogsId);
    var games := SortedByStart(found);
    SortOutcomeOk(found);
    CalendarOfGames(games, TeamMap(included, BulldogsId, BulldogsName));
    SortedByStartPermutes(found);
    assert |games| == |multiset(games)| == |multiset(found)| == |found|;
  }

  /** An empty or missing "included" list yields a calendar of just the
      header and footer; a null one stops the run with a TypeError before
      any file is written. */
  lemma EmptyDocument(doc: Document, parses: string -> bool)
    ensures doc.included == NoIncluded || doc.included == Included([]) ==>
              Run(doc, parses) == Ok(Written(Header + Footer, None))
    ensures doc.included == NullIncluded ==> Run(doc, parses).Err? && Run(doc, parses).error.TypeError?
  {
    assert FilterOutcome([], BulldogsId) == Ok([]);
    assert SortOutcome([]) == Ok([]);
    assert FirstError(PreviewFailures([], parses)) == None;
    assert EventOutcomes([], TeamMap([], BulldogsId, BulldogsName)) == [];
    assert Header + [] + Footer == Header + Footer;
  }
}
