/** A synthetic league run through the session-2 writer: teams "10"
    (Home FC) and "20" (Away FC) and one game E1 between them on 1 January
    2025 from 10:00 to 11:30, on resource 1, area 3, tracked as team "20". */
module SyntheticLeague {
  import opened Json
  import opened Teams
  import opened Games
  import opened StatIndex
  import opened Calendar
  import opened Session2

  const HomeTeam := Record(Str("teams"), Str("10"), Attrs(NoFields.(name := Str("Home FC"))))
  const AwayTeam := Record(Str("teams"), Str("20"), Attrs(NoFields.(name := Str("Away FC"))))
  const GameE1 := Record(Str("events"), Str("E1"), Attrs(NoFields.(
                    hteamId := Str("10"), vteamId := Str("20"),
                    start := Str("2025-01-01T10:00:00"), end := Str("2025-01-01T11:30:00"),
                    resourceId := Str("1"), resourceAreaId := Str("3"))))
  const League := [HomeTeam, AwayTeam, GameE1]

  /** Team "10" is Home FC, team "20" Away FC, and an undeclared team "99"
      is "Team 99". */
  lemma TeamNames()
    ensures SafeName(TeamMap(League, "20", "Away FC"), "10") == "Home FC"
    ensures SafeName(TeamMap(League, "20", "Away FC"), "20") == "Away FC"
    ensures SafeName(TeamMap(League, "20", "Away FC"), "99") == "Team 99"
  {
    TeamEntriesLastWins(League, 0);
    TeamEntriesLastWins(League, 1);
    assert IsTeam(League[0]) && League[0].id == Str("10");
    assert IsTeam(League[1]) && League[1].id == Str("20");
    SafeNameResolves(League, "20", "Away FC", "10");
    SafeNameResolves(League, "20", "Away FC", "20");
    SafeNameResolves(League, "20", "Away FC", "99");
  }

  /** Tracking team "20" selects the one game. */
  lemma SelectedGames()
    ensures FilterGames(League, "20") == [GameE1]
  {
    assert !Involves(HomeTeam, "20") && !Involves(AwayTeam, "20") && Involves(GameE1, "20");
    assert FilterGames(League[..1], "20") == [] by {
      assert League[..1][..0] == [];
    }
    assert FilterGames(League[..2], "20") == [] by {
      assert League[..2][..1] == League[..1];
    }
    assert League[..2] == League[..|League| - 1];
  }

  lemma StartStamp()
    ensures Stamp("2025-01-01T10:00:00") == "20250101T100000"
  {
    StampOfIsoDateTime("2025", "01", "01", "10", "00", "00");
    assert "2025-01-01T10:00:00" == "2025" + "-" + "01" + "-" + "01" + "T" + "10" + ":" + "00" + ":" + "00";
  }

  lemma EndStamp()
    ensures Stamp("2025-01-01T11:30:00") == "20250101T113000"
  {
    StampOfIsoDateTime("2025", "01", "01", "11", "30", "00");
    assert "2025-01-01T11:30:00" == "2025" + "-" + "01" + "-" + "01" + "T" + "11" + ":" + "30" + ":" + "00";
  }

  /** The game has no score: the league records no stat-events. */
  lemma NoScore()
    ensures GetScore(GameE1, ScoreIndex(League)) == None
  {
    ScoreIndexEvents(League, "E1");
    assert !Counted(League[0]) && !Counted(League[1]) && !Counted(League[2]);
  }

  /** The game's block is written, nine lines long, and its times are
      the compact forms of 10:00 and 11:30 on 1 January 2025. */
  lemma BlockTimes()
    ensures var b := EventBlock(GameE1, TeamMap(League, "20", "Away FC"), ScoreIndex(League));
            b.Ok? && |b.value| == 9 &&
            b.value[3] == "DTSTART;TZID=" + TimeZone + ":" + "20250101T100000" &&
            b.value[4] == "DTEND;TZID=" + TimeZone + ":" + "20250101T113000"
  {
    StartStamp();
    EndStamp();
    EventBlockWritten(GameE1, TeamMap(League, "20", "Away FC"), ScoreIndex(League));
    EventBlockFields(GameE1, TeamMap(League, "20", "Away FC"), ScoreIndex(League));
  }

  /** The summary names the home and the away team. */
  lemma BlockSummary()
    ensures var b := EventBlock(GameE1, TeamMap(League, "20", "Away FC"), ScoreIndex(League));
            b.Ok? && |b.value| == 9 && b.value[5] == "SUMMARY:" + ("Home FC" + " vs " + "Away FC")
  {
    var teams := TeamMap(League, "20", "Away FC");
    var attrs := AttrsOrEmpty(GameE1.attributes);
    assert Show(attrs.hteamId) == "10" && Show(attrs.vteamId) == "20";
    assert Summary(GameE1, teams) == SafeName(teams, "10") + " vs " + SafeName(teams, "20");
    TeamNames();
    assert Summary(GameE1, teams) == "Home FC" + " vs " + "Away FC";
    EventBlockWritten(GameE1, teams, ScoreIndex(League));
    EventBlockFields(GameE1, teams, ScoreIndex(League));
  }

  /** The description gives the field as "Bubble 1: Quarter 1C" and no
      score. */
  lemma BlockDescription()
    ensures var b := EventBlock(GameE1, TeamMap(League, "20", "Away FC"), ScoreIndex(League));
            b.Ok? && |b.value| == 9 &&
            b.value[7] == "DESCRIPTION:" + ("Field Assignment: " + "Bubble 1" + ": " + "Quarter 1C"
                                            + "\\nTeam Page: " + TeamPageUrl)
  {
    NoScore();
    ResourceNames("1");
    AreaNames("3");
    DescriptionShowsScore(GameE1, ScoreIndex(League));
    EventBlockWritten(GameE1, TeamMap(League, "20", "Away FC"), ScoreIndex(League));
    EventBlockFields(GameE1, TeamMap(League, "20", "Away FC"), ScoreIndex(League));
  }
}
