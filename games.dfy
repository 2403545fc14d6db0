/** The event filter both scripts run (`filter_team_events`,
    `filter_bulldogs_events`): keep, in order and without deduplication, the
    "events" records in which the tracked team is the home or the away side. */
module Games {
  import opened Json

  predicate IsEvent(r: Record) {
    IsType(r, "events")
  }

  /** `item.get("attributes", {})` is followed by `.get(...)`, which raises on
      an event whose attributes are null. */
  predicate Crashes(r: Record) {
    IsEvent(r) && r.attributes.NullAttrs?
  }

  /** The tracked team plays in this event: `str(hteam_id)` or `str(vteam_id)`
      equals the tracked id. */
  predicate Involves(r: Record, trackedId: string) {
    && IsEvent(r)
    && !r.attributes.NullAttrs?
    && var a := AttrsOrEmpty(r.attributes);
       Show(a.hteamId) == trackedId || Show(a.vteamId) == trackedId
  }

  /** The games list the loop builds when no event crashes it. */
  function FilterGames(included: seq<Record>, trackedId: string): seq<Record>
    decreases |included|
  {
    if included == [] then []
    else
      var games := FilterGames(included[..|included| - 1], trackedId);
      var r := included[|included| - 1];
      if Involves(r, trackedId) then games + [r] else games
  }

  /** What the filter returns, or the exception it raises. */
  function FilterOutcome(included: seq<Record>, trackedId: string): Result<seq<Record>> {
    if exists r :: r in included && Crashes(r)
    then Err(AttributeError("'NoneType' object has no attribute 'get'"))
    else Ok(FilterGames(included, trackedId))
  }

  method FilterTeamEvents(included: seq<Record>, trackedId: string) returns (result: Result<seq<Record>>)
    ensures result == FilterOutcome(included, trackedId)
  {
    var games := [];
    for i := 0 to |included|
      invariant games == FilterGames(included[..i], trackedId)
      invariant forall k :: 0 <= k < i ==> !Crashes(included[k])
    {
      var item := included[i];
      assert included[..i + 1][..i] == included[..i];
      if !IsType(item, "events") {
        continue;
      }
      if item.attributes.NullAttrs? {
        assert item in included && Crashes(item);
        return Err(AttributeError("'NoneType' object has no attribute 'get'"));
      }
      var attrs := AttrsOrEmpty(item.attributes);
      var htid := Show(attrs.hteamId);
      var vtid := Show(attrs.vteamId);
      if htid == trackedId || vtid == trackedId {
        games := games + [item];
      }
    }
    assert included[..|included|] == included;
    result := Ok(games);
  }

  /** The positions in `included` of the records the filter keeps, in order:
      an independent description of the selection. */
  function KeptPositions(included: seq<Record>, trackedId: string): seq<nat>
    decreases |included|
  {
    if included == [] then []
    else
      var ps := KeptPositions(included[..|included| - 1], trackedId);
      if Involves(included[|included| - 1], trackedId) then ps + [|included| - 1] else ps
  }

  /** The filter's result is the subsequence of `included` at exactly the
      positions of the events the tracked team plays in: every such event is
      kept (duplicates too), no other record is, and input order is kept. */
  lemma {:induction false} FilterIsOrderedSelection(included: seq<Record>, trackedId: string)
    ensures |FilterGames(included, trackedId)| == |KeptPositions(included, trackedId)|
    ensures forall k :: 0 <= k < |KeptPositions(included, trackedId)| ==>
              KeptPositions(included, trackedId)[k] < |included| &&
              FilterGames(included, trackedId)[k] == included[KeptPositions(included, trackedId)[k]]
    ensures forall k, l :: 0 <= k < l < |KeptPositions(included, trackedId)| ==>
              KeptPositions(included, trackedId)[k] < KeptPositions(included, trackedId)[l]
    ensures forall p :: 0 <= p < |included| ==>
              (p in KeptPositions(included, trackedId) <==> Involves(included[p], trackedId))
    decreases |included|
  {
    if included != [] {
      var front := included[..|included| - 1];
      FilterIsOrderedSelection(front, trackedId);
      var ps := KeptPositions(front, trackedId);
      assert forall p :: 0 <= p < |front| ==> front[p] == included[p];
      assert forall k :: 0 <= k < |ps| ==> ps[k] < |front|;
    }
  }

  /** Each record occurs in the result as often as in the input when the
      tracked team plays in it, and never otherwise. */
  lemma {:induction false} FilterKeepsDuplicates(included: seq<Record>, trackedId: string, r: Record)
    ensures multiset(FilterGames(included, trackedId))[r]
            == if Involves(r, trackedId) then multiset(included)[r] else 0
    decreases |included|
  {
    if included != [] {
      var front := included[..|included| - 1];
      FilterKeepsDuplicates(front, trackedId, r);
      assert included == front + [included[|included| - 1]];
    }
  }

  /** The filter raises exactly when some event record has null attributes. */
  lemma FilterFailsOnlyOnNullAttributes(included: seq<Record>, trackedId: string)
    ensures FilterOutcome(included, trackedId).Err? <==>
            exists i :: 0 <= i < |included| && IsEvent(included[i]) && included[i].attributes.NullAttrs?
  {
    if exists i :: 0 <= i < |included| && IsEvent(included[i]) && included[i].attributes.NullAttrs? {
      var i :| 0 <= i < |included| && IsEvent(included[i]) && included[i].attributes.NullAttrs?;
      assert included[i] in included && Crashes(included[i]);
    }
  }
}
