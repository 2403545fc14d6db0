# League schedule to iCalendar, modelled in Dafny

Two small scripts fetch a league's schedule as a JSON:API document and write an
iCalendar file for one tracked team:

- `U14B_Schedule_Session2.py` covers Holbrook United (team `2586`, league 632).
  Its events carry the venue, the field assignment (bubble and quarter) and, when known, the final score.
  The score comes either from the game's own `hscore`/`vscore` or from summed "stat-events" goals.
- `Schedule.py` covers the (U10G) HAYSA Bulldogs (team `2368`, league 547).
  Its events carry only the times and the matchup.

This project models what both scripts do with the decoded document. Each step is modelled with the
branches, fallbacks and exceptions of the Python code:

- the team directory (`build_team_map`), and the name lookup over it (`safe_name`);
- the event filter, and the stat-event score index (`index_stat_events`);
- the score rule (`get_score_for_event`), and the resource and area labels;
- the stable sort by start time;
- the calendar text `write_ics` produces, and `main`'s composition of the steps.

Modules:

| module | file | contents |
|---|---|---|
| `Json` | json.dfy | records as the scripts see them. A key can be missing, null, a string or an int. It also holds Python's `str()`, truthiness and the exceptions raised. |
| `Teams` | teams.dfy | `build_team_map` (a loop over a map) and `safe_name`, parameterised by the tracked id and default name |
| `Games` | games.dfy | the event filter (a loop appending to a list) |
| `StatIndex` | scores.dfy | `index_stat_events` (a loop updating a nested map) and `get_score_for_event` |
| `StartOrder` | start_order.dfy | `games.sort(key=start)`. It is an in-place insertion sort on an array, proved equal to a stable-sort specification. |
| `Calendar` | calendar.dfy | the timestamp `replace` chain, the VEVENT line layout, and the writer loop shared by both scripts |
| `Preview` | preview.dfy | where the console preview's `parse_dt` calls can raise |
| `Session2` | session2.dfy | the session-2 script's constants, lookups, event block, writer and `main` |
| `Bulldogs` | schedule.dfy | the Bulldogs script's event block, writer and `main` |
| `SyntheticLeague` | scenario.dfy | a two-team, one-game league run through the session-2 writer |

How Python behaviour is represented:

- A Python exception is an `Err` value.
- The writer's result is the lines written plus the exception that stopped it, if any.
  A modelled line is a line as the writer's own text lays it out, without its "\n". `Text` ends each with "\n" and joins them into the text the writer writes. That is the exact file contents where `os.linesep` is "\n" (POSIX).
  Text from the document (team names, ids, times, resource and area ids) is written raw. A CR or LF inside it splits a line of the file, and could even add lines such as `BEGIN:VEVENT`.
  The line and BEGIN:VEVENT counts below count these written lines, which are the file's lines only when no such text holds a CR or LF.
  The file is written as the loop goes, so a failing game leaves the blocks before it in the file, with no footer.
- `main` is a function `Run` and a method `GenerateCalendar` proved equal to it.
  Either ends in the exception of the first step that raises, or in what the writer leaves behind.

## Model

`Teams`, `Games`, `StartOrder` and `Calendar` are shared. They take the tracked id and default name as parameters, so each also models the same code in `Schedule.py`: `build_team_map` (13-22), `filter_bulldogs_events` (24-34), `safe_name` (36-37), the sort (75) and the writer (42-67). Each row cites one of the two copies.

| member | source | states |
|---|---|---|
| Teams.BuildTeamMap | U14B_Schedule_Session2.py:40-48 | The loop's map is `TeamMap`. Each "teams" record, in order, sets its id (`item.get("id")`, so a missing and a null id are the one key `None`) to its name. The tracked id is then set to its current entry, or to the default name when it has none. |
| Teams.TeamEntriesDomain | U14B_Schedule_Session2.py:42-46 | The directory holds an id exactly when some "teams" record declares it. Records of other types add nothing. |
| Teams.TeamEntriesLastWins | U14B_Schedule_Session2.py:42-46 | An id's entry is the name of the last "teams" record with that id, so a later record overwrites an earlier one. |
| Teams.TeamMapTracked | U14B_Schedule_Session2.py:47 | The tracked id is always present. A name a team record gave it is kept. The default name is used only when no record declares it. Every other entry is the loop's own. |
| Teams.MissingAndNullIdShareKey | U14B_Schedule_Session2.py:43-46 | `item.get("id")` gives `None` for a missing id and for a null one, so the two share one key. A team record with no id followed by one with a null id leaves the single entry `None` holding the later name. |
| Teams.TeamEntriesNonEmpty | U14B_Schedule_Session2.py:45 | Every name in the directory is non-empty: a truthy `name`, or `"Team {id}"`. |
| Teams.SafeNameResolves | U14B_Schedule_Session2.py:83-84 | `safe_name` never fails or returns "". It gives a record's name for a declared id, the default for the tracked id, and `"Team {tid}"` for any other id. |
| Games.FilterTeamEvents | U14B_Schedule_Session2.py:51-61 | The loop returns `FilterOutcome`. That is the games the tracked team plays in, or the AttributeError raised by an event whose attributes are null. |
| Games.FilterIsOrderedSelection | U14B_Schedule_Session2.py:51-61 | The result is the subsequence of the input at strictly increasing positions. A position is kept exactly when it holds an event whose `str(hteam_id)` or `str(vteam_id)` is the tracked id. |
| Games.FilterKeepsDuplicates | U14B_Schedule_Session2.py:53-60 | A kept record occurs in the result as often as in the input, and a record not kept never occurs. |
| Games.FilterFailsOnlyOnNullAttributes | U14B_Schedule_Session2.py:56-57 | The filter raises exactly when some "events" record has null attributes. |
| StatIndex.IndexStatEvents | U14B_Schedule_Session2.py:64-80 | The loop returns `IndexOutcome`. That is the index, or the TypeError raised when a counted record's value is a non-empty string. |
| StatIndex.ScoreIndexEvents | U14B_Schedule_Session2.py:76-78 | The index holds an event key exactly when a "stat-events" record with non-empty event and team keys names it. |
| StatIndex.ScoreIndexEntry | U14B_Schedule_Session2.py:78-79 | `scores[e][t]` exists exactly when a counted record names the pair (e, t). It then equals the sum of the values of all such records, so repeated pairs add. |
| StatIndex.SumForUnrecorded | U14B_Schedule_Session2.py:79 | A pair no counted record names totals 0. |
| StatIndex.ScoreIndexInnerNonEmpty | U14B_Schedule_Session2.py:78-79 | Every event in the index has at least one team, so `if not event_scores` holds only for an event the index lacks. |
| StatIndex.MissingEventIdCounts | U14B_Schedule_Session2.py:73-76 | A stat-event without an `event_id` is not skipped. `str(None)` is "None", which passes the emptiness test, so its goals are filed under the key "None". |
| StatIndex.GetScore | U14B_Schedule_Session2.py:91-119 | A score always contains "-", so it is never empty, and `if score:` tests only for None. |
| StatIndex.DirectScoreWins | U14B_Schedule_Session2.py:101-105 | When both `hscore` and `vscore` are non-None, the score is `"{hscore}-{vscore}"` (including "0-0"), whatever the index holds. |
| StatIndex.ScoreFromStatEvents | U14B_Schedule_Session2.py:107-119 | Otherwise the score over the index built from the same records uses the summed goals of the home and away teams in that event. It is None exactly when both sums are 0, and `"{home}-{away}"` otherwise. |
| StartOrder.SortByStart | U14B_Schedule_Session2.py:170 | The sort succeeds exactly when every game has a string start. The array then holds `SortedByStart` of its old contents. On failure it is left unchanged, as Python leaves it when computing a key raises. |
| StartOrder.InsertionSort | U14B_Schedule_Session2.py:170 | The in-place insertion sort leaves exactly `SortedByStart` of the old contents. |
| StartOrder.InsertInPlace | U14B_Schedule_Session2.py:170 | One pass inserts `a[i]` into the sorted prefix exactly as `Insert` does, and leaves the rest of the array alone. |
| StartOrder.ShiftLater | U14B_Schedule_Session2.py:170 | The shifting loop moves the later-starting records of the prefix one place right. It stops after the last record whose start is not later. |
| StartOrder.AllHaveStartKeys | U14B_Schedule_Session2.py:170 | Reports whether every game's `e["attributes"]["start"]` is a string. |
| StartOrder.SortOutcomeOk | U14B_Schedule_Session2.py:170 | The sort's outcome is Ok exactly when every start is a string, and is then the stable sort. A game without a "start" key makes it raise KeyError. |
| StartOrder.SortedByStartIsSorted | Schedule.py:75 | The sorted games are non-decreasing in the start string. |
| StartOrder.SortedByStartPermutes | Schedule.py:75 | The sorted games are a permutation of the filtered games. |
| StartOrder.SortedByStartIsStable | Schedule.py:75 | Games with equal starts keep their relative order. |
| StartOrder.StableSortIsUnique | Schedule.py:75 | Two sorted lists with the same per-start subsequences are equal. So the model's sort is the only stable sort of the games, which is the one Python's `list.sort` returns. |
| StartOrder.InsertPermutes | Schedule.py:75 | Inserting one game adds exactly that game. |
| StartOrder.InsertSorted | Schedule.py:75 | Inserting into a sorted list keeps it sorted. |
| StartOrder.InsertStable | Schedule.py:75 | Inserting puts the game after every record with the same start. |
| StartOrder.InsertAtPosition | Schedule.py:75 | `Insert` places the game right after the last record whose start is not later than its own. |
| StartOrder.LexLeTotal | Schedule.py:75 | Python's string `<=` compares any two starts. |
| StartOrder.LexLeTransitive | Schedule.py:75 | String `<=` is transitive. |
| StartOrder.LexLeAntisymmetric | Schedule.py:75 | String `<=` is antisymmetric. |
| StartOrder.LexLeReflexive | Schedule.py:75 | String `<=` is reflexive. |
| Calendar.RemoveDeletes | U14B_Schedule_Session2.py:129 | `s.replace(c, "")` leaves no `c` and keeps every other character that occurs. |
| Calendar.RemoveAppend | U14B_Schedule_Session2.py:129 | `replace` works piece by piece over a concatenation. |
| Calendar.StampDeletesSeparators | U14B_Schedule_Session2.py:129-130 | A timestamp holds no "-" and no ":". Every other character of the source survives. |
| Calendar.StampAppend | U14B_Schedule_Session2.py:129-130 | Stamping a concatenation stamps each part. |
| Calendar.StampOfPlain | U14B_Schedule_Session2.py:129-130 | A string without separators is its own timestamp. |
| Calendar.StampOfIsoDateTime | U14B_Schedule_Session2.py:129-130 | `YYYY-MM-DDTHH:MM:SS` becomes `YYYYMMDDTHHMMSS`. |
| Calendar.WriteEvents | U14B_Schedule_Session2.py:123-160 | The writer loop leaves exactly `Ics` of the games' block outcomes: the header, the blocks, and then the footer or the first exception. |
| Calendar.IcsComplete | U14B_Schedule_Session2.py:124-160 | The calendar is complete exactly when every block can be built. It is then the header, every game's block in input order, and the footer. |
| Calendar.IcsStopsAtFirstFailure | U14B_Schedule_Session2.py:125-159 | When game k is the first whose block fails, the file holds the header and the blocks of games 0..k-1, with no footer. The run ends with game k's exception. |
| Calendar.IcsLayout | U14B_Schedule_Session2.py:124-160 | With w-line blocks, a complete calendar has 4 + w·n written lines. Line m of game k's block is line 3 + w·k + m. |
| Calendar.IcsCount | U14B_Schedule_Session2.py:151 | A line occurring once per block and not in the header or footer occurs once per game. |
| Calendar.EventLinesFields | U14B_Schedule_Session2.py:151-159 | The position of UID, DTSTAMP, DTSTART, DTEND, SUMMARY, the added lines and END in a block. |
| Calendar.EventLinesDelimited | U14B_Schedule_Session2.py:151-159 | Counted in written lines, a block opens and closes exactly once whatever UID, times and summary hold, provided the added lines are neither BEGIN:VEVENT nor END:VEVENT. It has 7 written lines plus the added ones. |
| Calendar.TextLineEndings | U14B_Schedule_Session2.py:124 | When no written line holds a CR or LF, every line ends with a bare LF. The text then has one LF per line and no CR, unlike the CRLF of RFC 5545 section 3.1. This is the file where `os.linesep` is "\n" (POSIX). |
| Json.FirstErrorIsEarliest | U14B_Schedule_Session2.py:173-175 | A loop over items raises exactly when some item does, and with the earliest such item's exception. |
| Session2.ResourceNames | U14B_Schedule_Session2.py:139 | Resources "1" and "2" are "Bubble 1" and "Bubble 2". Any other id, including "None", is "Resource {id}". |
| Session2.AreaNames | U14B_Schedule_Session2.py:19-28 | Areas "1".."8" are quarters A-D of bubble 1 and then of bubble 2. Any other id is "Area {id}". |
| Session2.EventBlockWritten | U14B_Schedule_Session2.py:126-159 | A block is built exactly when the game has attributes, string start and end, and an id. It then has 9 lines and one BEGIN:VEVENT. |
| Session2.EventBlockFields | U14B_Schedule_Session2.py:127-159 | In a block, UID is `{id}@unionpointsports` and DTSTAMP is the compact start plus "Z". DTSTART and DTEND carry `TZID=America/New_York` and the compact times. SUMMARY is the two `safe_name`s, LOCATION the venue, DESCRIPTION the notes. |
| Session2.DescriptionShowsScore | U14B_Schedule_Session2.py:143-149 | The description is `Field Assignment: {resource}: {area}\nTeam Page: {url}`, with a literal backslash-n. `\nFinal Score: {score}` is appended exactly when the score is not None. |
| Session2.WriteIcs | U14B_Schedule_Session2.py:122-160 | The writer leaves `Ics` of the session-2 blocks of the games. |
| Session2.CalendarOfGames | U14B_Schedule_Session2.py:124-160 | A complete calendar of n games has 4 + 9n written lines, n of them BEGIN:VEVENT. |
| Session2.GenerateCalendar | U14B_Schedule_Session2.py:163-190 | `main` built from the loops and the in-place sort ends exactly as `Run`. |
| Session2.RunWritesEveryGame | U14B_Schedule_Session2.py:163-190 | A run that reaches the writer writes the calendar of the Holbrook games in start order. When complete, it has one VEVENT per game the filter found. |
| Session2.EmptyDocumentWritesEmptyCalendar | U14B_Schedule_Session2.py:165 | A document whose "included" is empty, missing or null (`or []`) yields only the header and footer. |
| Bulldogs.EventBlockWritten | Schedule.py:46-66 | A block is built exactly when the game has attributes, string start and end, both `hteam_id` and `vteam_id` keys (read with `[]`), and an id. It then has 7 lines and one BEGIN:VEVENT. |
| Bulldogs.EventBlockFields | Schedule.py:49-66 | A block is exactly BEGIN, UID, DTSTAMP (compact start plus "Z"), DTSTART, DTEND, SUMMARY (the two `safe_name`s) and END. There is no LOCATION or DESCRIPTION. |
| Bulldogs.WriteIcs | Schedule.py:42-67 | The writer leaves `Ics` of the Bulldogs blocks of the games. |
| Bulldogs.CalendarOfGames | Schedule.py:43-67 | A complete calendar of n games has 4 + 7n written lines, n of them BEGIN:VEVENT. |
| Bulldogs.GenerateCalendar | Schedule.py:69-88 | `main` built from the loops and the in-place sort ends exactly as `Run`. |
| Bulldogs.RunWritesEveryGame | Schedule.py:69-88 | A run that reaches the writer writes the calendar of the Bulldogs games in start order. When complete, it has one VEVENT per game the filter found. |
| Bulldogs.PreviewGuardsWriter | Schedule.py:78-83 | Once a game passes the preview, its block fails only for a missing game id. |
| Bulldogs.EmptyDocument | Schedule.py:71 | A missing or empty "included" yields only the header and footer. A null one raises TypeError, since there is no `or []`. |
| SyntheticLeague.TeamNames | U14B_Schedule_Session2.py:40-48 | With teams "10" = Home FC and "20" = Away FC, the names resolve, and an undeclared "99" is "Team 99". |
| SyntheticLeague.SelectedGames | U14B_Schedule_Session2.py:51-61 | Tracking "20" selects the one game E1. |
| SyntheticLeague.StartStamp | U14B_Schedule_Session2.py:129 | "2025-01-01T10:00:00" becomes "20250101T100000". |
| SyntheticLeague.EndStamp | U14B_Schedule_Session2.py:130 | "2025-01-01T11:30:00" becomes "20250101T113000". |
| SyntheticLeague.NoScore | U14B_Schedule_Session2.py:107-110 | Without stat-events or direct scores, E1 has no score. |
| SyntheticLeague.BlockTimes | U14B_Schedule_Session2.py:151-155 | E1's block has nine lines and the compact start and end. |
| SyntheticLeague.BlockSummary | U14B_Schedule_Session2.py:132-134 | E1's summary is "Home FC vs Away FC". |
| SyntheticLeague.BlockDescription | U14B_Schedule_Session2.py:137-149 | E1's description gives the field as "Bubble 1: Quarter 1C" and has no score. |

## Left out

- `fetch_league_data` in both scripts is an HTTP GET plus JSON decoding. The decoded `Document` is the model's input.
- Opening and writing the file is not modelled.
  - The writer returns the lines it writes, plus the exception that stopped it.
  - File-system errors and the UTF-8 encoding are not modelled.
- The console preview's printing is left out, as are `strftime` and the weekday/12-hour formatting.
  - Its `parse_dt` calls are kept only as possible exceptions.
  - Whether `datetime.strptime` accepts a string is the parameter `parses`, because the datetime library is not part of this model.
- Only strings, ints and null are modelled as JSON values; floats, booleans and nested values are not.
  A boolean stat value (Python's `True` adds as 1) and a float goal count are therefore outside the model.
- Calendar.TextLineEndings: text-mode newline translation is not modelled.
  The scripts open the file with `open(filename, "w", encoding="utf-8")`, so each "\n" written becomes `os.linesep`.
  `Text` is the file's contents on POSIX. On Windows each LF, including one inside document text, is written as CRLF.
- Exception messages follow Python's wording where they are fixed. The comparison message of a failed sort is a fixed text.
- Preview.ParseFailure: every string `strptime` rejects gets the one ValueError text "time data '…' does not match format '…'".
  CPython also raises "unconverted data remains: …" for trailing text, and range errors such as "day is out of range for month".
  It quotes the string with `%r`, which need not give single quotes. The model keeps only the exception type, ValueError, exact.
- StartOrder.SortOutcome: states that the sort fails whenever some start is not a string.
  - Python sorts without comparing when there is one game, and sorts all-int starts without error.
  - In both cases the preview's `strptime` then raises a TypeError, so the run still ends in a TypeError. Only the message differs.
- StartOrder.SortByStart: reports failure whenever some start is not a string, for the same reason.
  On failure the model leaves the array unchanged. That matches Python only when computing a key raises.
  When the keys are computed but comparing them raises (a string start next to a null one), CPython leaves the list partly reordered.
  That order is not modelled. The run ends with the exception anyway, so nothing reads the list afterwards.
- Python's sort algorithm itself (Timsort) is not modelled. The model sorts by insertion, and `StableSortIsUnique` shows any stable sort returns the same list.
- `SyntheticLeague` tracks team "20" through the shared directory, filter and index, and builds its block with the session-2 block builder; the session-2 script itself hard-codes `2586`.
- The RFC 5545 deviations are modelled as the code behaves, not fixed:
  - lines end with LF, not CRLF, where `os.linesep` is "\n" (POSIX);
  - long lines are not folded;
  - commas in the venue are not escaped;
  - DTSTAMP carries "Z" next to a local DTSTART.
