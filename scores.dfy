/** The score index of the session-2 script (`index_stat_events`) and the
    score shown for one game (`get_score_for_event`): goals recorded as
    "stat-events" are summed per event and per team, and a game's score is
    either its own `hscore`/`vscore` pair or the sums for its two teams. */
module StatIndex {
  import opened Json

  /** Goals per team, keyed by the string form of the event id and then of
      the team id. */
  type Index = map<string, map<string, int>>

  /** `str(attrs.get("event_id"))`; a missing id is the string "None". */
  function EventKey(r: Record): string {
    Show(AttrsOrEmpty(r.attributes).eventId)
  }

  /** `str(attrs.get("team_id"))` */
  function TeamKey(r: Record): string {
    Show(AttrsOrEmpty(r.attributes).teamId)
  }

  /** A stat-event the loop adds to the index: its type matches and neither
      key is the empty string (`if not event_id or not team_id: continue`). */
  predicate Counted(r: Record) {
    IsType(r, "stat-events") && EventKey(r) != "" && TeamKey(r) != ""
  }

  /** `attrs.get("value", 0) or 0` as a number that can be added to an int:
      falsy values become 0, and a non-empty string cannot be added. */
  function Goals(v: Scalar): Option<int> {
    match v
    case Missing => Some(0)
    case Null => Some(0)
    case Int(i) => Some(i)
    case Str(s) => if s == "" then Some(0) else None
  }

  /** The number a counted record adds (0 for one whose value cannot be added). */
  function GoalValue(r: Record): int {
    var g := Goals(AttrsOrEmpty(r.attributes).value);
    if g.Some? then g.value else 0
  }

  /** A counted record whose value is a non-empty string: `int + str` raises. */
  predicate Fails(r: Record) {
    Counted(r) && Goals(AttrsOrEmpty(r.attributes).value).None?
  }

  const AddError := TypeError("unsupported operand type(s) for +: 'int' and 'str'")

  /** One addition to the index: `setdefault(e, {})` and then
      `scores[e][t] = scores[e].get(t, 0) + value`. */
  function Tally(m: Index, e: string, t: string, value: int): Index {
    var inner := if e in m then m[e] else map[];
    m[e := inner[t := (if t in inner then inner[t] else 0) + value]]
  }

  /** The index after the loop, when no record makes it raise. */
  function ScoreIndex(included: seq<Record>): Index
    decreases |included|
  {
    if included == [] then map[]
    else
      var m := ScoreIndex(included[..|included| - 1]);
      var r := included[|included| - 1];
      if Counted(r) then Tally(m, EventKey(r), TeamKey(r), GoalValue(r)) else m
  }

  /** What `index_stat_events` returns, or the exception it raises. */
  function IndexOutcome(included: seq<Record>): Result<Index> {
    if exists r :: r in included && Fails(r) then Err(AddError) else Ok(ScoreIndex(included))
  }

  method IndexStatEvents(included: seq<Record>) returns (result: Result<Index>)
    ensures result == IndexOutcome(included)
  {
    var scores: Index := map[];
    for i := 0 to |included|
      invariant scores == ScoreIndex(included[..i])
      invariant forall k :: 0 <= k < i ==> !Fails(included[k])
    {
      var item := included[i];
      assert included[..i + 1][..i] == included[..i];
      assert included[..i + 1][i] == item;
      if !IsType(item, "stat-events") {
        continue;
      }
      var attrs := AttrsOrEmpty(item.attributes);
      var eventId := Show(attrs.eventId);
      var teamId := Show(attrs.teamId);
      var value := Goals(attrs.value);
      if eventId == "" || teamId == "" {
        continue;
      }
      if eventId !in scores {
        scores := scores[eventId := map[]];
      }
      var inner := scores[eventId];
      var current := if teamId in inner then inner[teamId] else 0;
      if value.None? {
        assert item in included && Fails(item);
        return Err(AddError);
      }
      assert current + value.value == GoalValue(item) + current;
      scores := scores[eventId := inner[teamId := current + value.value]];
    }
    assert included[..|included|] == included;
    result := Ok(scores);
  }

  /** Some counted record carries event key `e`. */
  predicate HasEvent(included: seq<Record>, e: string) {
    exists i :: 0 <= i < |included| && Counted(included[i]) && EventKey(included[i]) == e
  }

  /** Some counted record carries event key `e` and team key `t`. */
  predicate HasPair(included: seq<Record>, e: string, t: string) {
    exists i :: 0 <= i < |included| && Counted(included[i]) &&
                EventKey(included[i]) == e && TeamKey(included[i]) == t
  }

  /** The goals recorded for team `t` in event `e`: the sum of the values of
      the counted records with those keys, independent of any map. */
  function SumFor(included: seq<Record>, e: string, t: string): int
    decreases |included|
  {
    if included == [] then 0
    else
      var r := included[|included| - 1];
      SumFor(included[..|included| - 1], e, t)
        + (if Counted(r) && EventKey(r) == e && TeamKey(r) == t then GoalValue(r) else 0)
  }

  /** A record of `included` matches exactly when one of its front does or
      its last record does. */
  lemma HasEventSplit(included: seq<Record>, e: string)
    requires included != []
    ensures HasEvent(included, e) <==>
              HasEvent(included[..|included| - 1], e) ||
              (Counted(included[|included| - 1]) && EventKey(included[|included| - 1]) == e)
  {
    var front := included[..|included| - 1];
    if HasEvent(front, e) {
      var i :| 0 <= i < |front| && Counted(front[i]) && EventKey(front[i]) == e;
      assert included[i] == front[i];
    }
    if HasEvent(included, e) {
      var i :| 0 <= i < |included| && Counted(included[i]) && EventKey(included[i]) == e;
      if i < |front| {
        assert front[i] == included[i];
      }
    }
  }

  lemma HasPairSplit(included: seq<Record>, e: string, t: string)
    requires included != []
    ensures HasPair(included, e, t) <==>
              HasPair(included[..|included| - 1], e, t) ||
              (Counted(included[|included| - 1]) &&
               EventKey(included[|included| - 1]) == e && TeamKey(included[|included| - 1]) == t)
  {
    var front := included[..|included| - 1];
    if HasPair(front, e, t) {
      var i :| 0 <= i < |front| && Counted(front[i]) && EventKey(front[i]) == e && TeamKey(front[i]) == t;
      assert included[i] == front[i];
    }
    if HasPair(included, e, t) {
      var i :| 0 <= i < |included| && Counted(included[i]) && EventKey(included[i]) == e && TeamKey(included[i]) == t;
      if i < |front| {
        assert front[i] == included[i];
      }
    }
  }

  /** Without a matching record the sum is 0. */
  lemma {:induction false} SumForUnrecorded(included: seq<Record>, e: string, t: string)
    requires !HasPair(included, e, t)
    ensures SumFor(included, e, t) == 0
    decreases |included|
  {
    if included != [] {
      HasPairSplit(included, e, t);
      SumForUnrecorded(included[..|included| - 1], e, t);
    }
  }

  /** The index holds an event exactly when a counted record names it. */
  lemma {:induction false} ScoreIndexEvents(included: seq<Record>, e: string)
    ensures e in ScoreIndex(included) <==> HasEvent(included, e)
    decreases |included|
  {
    if included != [] {
      HasEventSplit(included, e);
      ScoreIndexEvents(included[..|included| - 1], e);
    }
  }

  /** The index holds a team under an event exactly when a counted record
      names both, and then the total is the sum of that pair's values. */
  lemma {:induction false} ScoreIndexEntry(included: seq<Record>, e: string, t: string)
    ensures (e in ScoreIndex(included) && t in ScoreIndex(included)[e]) <==> HasPair(included, e, t)
    ensures e in ScoreIndex(included) && t in ScoreIndex(included)[e] ==>
              ScoreIndex(included)[e][t] == SumFor(included, e, t)
    decreases |included|
  {
    if included != [] {
      var front := included[..|included| - 1];
      HasPairSplit(included, e, t);
      ScoreIndexEntry(front, e, t);
      if !HasPair(front, e, t) {
        SumForUnrecorded(front, e, t);
      }
    }
  }

  /** Every event in the index has at least one team entry, so the test
      `if not event_scores` fails only for an event the index lacks. */
  lemma {:induction false} ScoreIndexInnerNonEmpty(included: seq<Record>, e: string)
    requires e in ScoreIndex(included)
    ensures ScoreIndex(included)[e] != map[]
    decreases |included|
  {
    var n := |included| - 1;
    var front := included[..n];
    var r := included[n];
    if Counted(r) && EventKey(r) == e {
      assert TeamKey(r) in ScoreIndex(included)[e];
    } else {
      ScoreIndexInnerNonEmpty(front, e);
    }
  }

  /** An event's record stores its goals under the text `str(id)`, so a stat
      event without an event id still counts, under the key "None". */
  lemma MissingEventIdCounts(r: Record)
    requires IsType(r, "stat-events") && AttrsOrEmpty(r.attributes).eventId.Missing?
    requires TeamKey(r) != "" && Goals(AttrsOrEmpty(r.attributes).value).Some?
    ensures Counted(r) && "None" in ScoreIndex([r])
    ensures TeamKey(r) in ScoreIndex([r])["None"]
    ensures ScoreIndex([r])["None"][TeamKey(r)] == GoalValue(r)
  {
    assert [r][..0] == [];
  }

  /** `dict.get(k, 0)` */
  function GetOrZero(m: map<string, int>, k: string): int {
    if k in m then m[k] else 0
  }

  /** `get_score_for_event`: the game's own `hscore`/`vscore` when neither
      is None, otherwise the stat-event totals of its two teams, or None
      when the event has no totals or both totals are 0. */
  function GetScore(ev: Record, scores: Index): (r: Option<string>)
    ensures r.Some? ==> '-' in r.value
  {
    var attrs := AttrsOrEmpty(ev.attributes);
    var eid := Show(ev.id);
    var htid := Show(attrs.hteamId);
    var vtid := Show(attrs.vteamId);
    if !IsNone(attrs.hscore) && !IsNone(attrs.vscore) then
      Some(Show(attrs.hscore) + "-" + Show(attrs.vscore))
    else
      var eventScores := if eid in scores then scores[eid] else map[];
      if eventScores == map[] then None
      else
        var homeGoals := GetOrZero(eventScores, htid);
        var awayGoals := GetOrZero(eventScores, vtid);
        if homeGoals == 0 && awayGoals == 0 then None
        else Some(IntToString(homeGoals) + "-" + IntToString(awayGoals))
  }

  /** A game's own score wins: when both `hscore` and `vscore` are present
      the score is `"{hscore}-{vscore}"` and the stat-events are not
      consulted at all. */
  lemma DirectScoreWins(ev: Record, scores: Index, other: Index)
    requires !IsNone(AttrsOrEmpty(ev.attributes).hscore) && !IsNone(AttrsOrEmpty(ev.attributes).vscore)
    ensures GetScore(ev, scores) == GetScore(ev, other)
    ensures GetScore(ev, scores)
            == Some(Show(AttrsOrEmpty(ev.attributes).hscore) + "-" + Show(AttrsOrEmpty(ev.attributes).vscore))
  {
  }

  /** End to end: a game without its own score shows the summed stat-event
      goals of its home and away team in that event, and nothing exactly
      when both sums are 0 (no stat-event for the game at all included). */
  lemma ScoreFromStatEvents(ev: Record, included: seq<Record>)
    requires IsNone(AttrsOrEmpty(ev.attributes).hscore) || IsNone(AttrsOrEmpty(ev.attributes).vscore)
    ensures var eid := Show(ev.id);
            var home := SumFor(included, eid, Show(AttrsOrEmpty(ev.attributes).hteamId));
            var away := SumFor(included, eid, Show(AttrsOrEmpty(ev.attributes).vteamId));
            GetScore(ev, ScoreIndex(included))
            == if home == 0 && away == 0 then None
               else Some(IntToString(home) + "-" + IntToString(away))
  {
    var attrs := AttrsOrEmpty(ev.attributes);
    var eid := Show(ev.id);
    var htid := Show(attrs.hteamId);
    var vtid := Show(attrs.vteamId);
    var idx := ScoreIndex(included);
    ScoreIndexEntry(included, eid, htid);
    ScoreIndexEntry(included, eid, vtid);
    if eid in idx {
      ScoreIndexInnerNonEmpty(included, eid);
      if htid !in idx[eid] {
        SumForUnrecorded(included, eid, htid);
      }
      if vtid !in idx[eid] {
        SumForUnrecorded(included, eid, vtid);
      }
    } else {
      SumForUnrecorded(included, eid, htid);
      SumForUnrecorded(included, eid, vtid);
    }
  }
}
