/** The team directory both scripts build (`build_team_map`) and the total
    name lookup over it (`safe_name`).  The two scripts differ only in the
    tracked team's id and default display name, which are parameters here. */
module Teams {
  import opened Json

  /** The display name one "teams" record contributes:
      `(item.get("attributes") or {}).get("name") or f"Team {tid}"`. */
  function TeamName(r: Record): string {
    var name := AttrsOrEmpty(r.attributes).name;
    if Truthy(name) then Show(name) else "Team " + Show(r.id)
  }

  /** The dictionary key `item.get("id")` yields: a missing id and a null id
      are both `None`, so they are one key. */
  function IdKey(v: Scalar): Scalar {
    if v.Missing? then Null else v
  }

  predicate IsTeam(r: Record) {
    IsType(r, "teams")
  }

  /** The directory after the loop over `included`: every "teams" record, in
      order, sets its id to its name (a later record overwrites). */
  function TeamEntries(included: seq<Record>): map<Scalar, string>
    decreases |included|
  {
    if included == [] then map[]
    else
      var m := TeamEntries(included[..|included| - 1]);
      var r := included[|included| - 1];
      if IsTeam(r) then m[IdKey(r.id) := TeamName(r)] else m
  }

  /** The directory `build_team_map` returns: the entries above, plus the
      tracked team under its default name unless a record already named it. */
  function TeamMap(included: seq<Record>, trackedId: string, defaultName: string): map<Scalar, string> {
    var m := TeamEntries(included);
    var k := Str(trackedId);
    m[k := if k in m then m[k] else defaultName]
  }

  method BuildTeamMap(included: seq<Record>, trackedId: string, defaultName: string)
    returns (teams: map<Scalar, string>)
    ensures teams == TeamMap(included, trackedId, defaultName)
  {
    teams := map[];
    for i := 0 to |included|
      invariant teams == TeamEntries(included[..i])
    {
      var item := included[i];
      assert included[..i + 1][..i] == included[..i];
      if IsType(item, "teams") {
        teams := teams[IdKey(item.id) := TeamName(item)];
      }
    }
    assert included[..|included|] == included;
    var k := Str(trackedId);
    teams := teams[k := if k in teams then teams[k] else defaultName];
  }

  /** `teams.get(tid, f"Team {tid}")`; lookups use the string form of an id. */
  function SafeName(teams: map<Scalar, string>, tid: string): string {
    if Str(tid) in teams then teams[Str(tid)] else "Team " + tid
  }

  /** Some record declares `k` as a team id. */
  predicate Declares(included: seq<Record>, k: Scalar) {
    exists i :: 0 <= i < |included| && IsTeam(included[i]) && IdKey(included[i].id) == k
  }

  /** The directory holds exactly the ids of the "teams" records; records of
      any other type add nothing. */
  lemma {:induction false} TeamEntriesDomain(included: seq<Record>, k: Scalar)
    ensures k in TeamEntries(included) <==> Declares(included, k)
    decreases |included|
  {
    if included != [] {
      var front := included[..|included| - 1];
      TeamEntriesDomain(front, k);
      if Declares(front, k) {
        var i :| 0 <= i < |front| && IsTeam(front[i]) && IdKey(front[i].id) == k;
        assert included[i] == front[i];
      }
      if Declares(included, k) && !Declares(front, k) {
        var i :| 0 <= i < |included| && IsTeam(included[i]) && IdKey(included[i].id) == k;
        assert i == |included| - 1;
      }
    }
  }

  /** Every entry comes from the LAST "teams" record with that id: a later
      record with the same id overwrites an earlier one. */
  lemma {:induction false} TeamEntriesLastWins(included: seq<Record>, i: nat)
    requires i < |included| && IsTeam(included[i])
    requires forall j :: i < j < |included| && IsTeam(included[j]) ==> IdKey(included[j].id) != IdKey(included[i].id)
    ensures IdKey(included[i].id) in TeamEntries(included)
    ensures TeamEntries(included)[IdKey(included[i].id)] == TeamName(included[i])
    decreases |included|
  {
    if i < |included| - 1 {
      var front := included[..|included| - 1];
      assert forall j :: i < j < |front| ==> front[j] == included[j];
      TeamEntriesLastWins(front, i);
    }
  }

  /** A "teams" record with no id and a later one with a null id share the
      key `None`: the later name overwrites the earlier, as in a Python dict. */
  lemma MissingAndNullIdShareKey(a: Record, b: Record)
    requires IsTeam(a) && IsTeam(b) && a.id.Missing? && b.id.Null?
    ensures TeamEntries([a, b]) == map[Null := TeamName(b)]
  {
    assert [a][..0] == [];
    assert TeamEntries([a]) == map[Null := TeamName(a)];
    assert [a, b][..1] == [a];
    assert TeamEntries([a, b]) == map[Null := TeamName(a)][Null := TeamName(b)];
  }

  /** The tracked team always resolves: to the name a "teams" record gave it
      when there is one (it is kept, not replaced by the default), and to the
      default otherwise.  Every other entry is the loop's own. */
  lemma TeamMapTracked(included: seq<Record>, trackedId: string, defaultName: string)
    ensures Str(trackedId) in TeamMap(included, trackedId, defaultName)
    ensures Declares(included, Str(trackedId)) ==>
              Str(trackedId) in TeamEntries(included) &&
              TeamMap(included, trackedId, defaultName)[Str(trackedId)]
              == TeamEntries(included)[Str(trackedId)]
    ensures !Declares(included, Str(trackedId)) ==>
              TeamMap(included, trackedId, defaultName)[Str(trackedId)] == defaultName
    ensures forall k :: k != Str(trackedId) ==>
              (k in TeamMap(included, trackedId, defaultName) <==> k in TeamEntries(included))
    ensures forall k :: k != Str(trackedId) && k in TeamEntries(included) ==>
              TeamMap(included, trackedId, defaultName)[k] == TeamEntries(included)[k]
  {
    TeamEntriesDomain(included, Str(trackedId));
  }

  /** Every name the directory holds is non-empty. */
  lemma {:induction false} TeamEntriesNonEmpty(included: seq<Record>)
    ensures forall k :: k in TeamEntries(included) ==> TeamEntries(included)[k] != ""
    decreases |included|
  {
    if included != [] {
      TeamEntriesNonEmpty(included[..|included| - 1]);
    }
  }

  /** `safe_name` over the built directory never fails and never yields an
      empty name: it is a record's name, the tracked team's default, or
      "Team {tid}" for an id no record declares. */
  lemma SafeNameResolves(included: seq<Record>, trackedId: string, defaultName: string, tid: string)
    requires defaultName != ""
    ensures SafeName(TeamMap(included, trackedId, defaultName), tid) != ""
    ensures Declares(included, Str(tid)) ==>
              Str(tid) in TeamEntries(included) &&
              SafeName(TeamMap(included, trackedId, defaultName), tid) == TeamEntries(included)[Str(tid)]
    ensures !Declares(included, Str(tid)) && tid == trackedId ==>
              SafeName(TeamMap(included, trackedId, defaultName), tid) == defaultName
    ensures !Declares(included, Str(tid)) && tid != trackedId ==>
              SafeName(TeamMap(included, trackedId, defaultName), tid) == "Team " + tid
  {
    TeamEntriesDomain(included, Str(tid));
    TeamEntriesNonEmpty(included);
    TeamMapTracked(included, trackedId, defaultName);
  }
}
