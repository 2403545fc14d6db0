/** The ordering step of both scripts:
    `games.sort(key=lambda e: e["attributes"]["start"])`, Python's stable sort
    on the start strings, which compare lexicographically by code point. */
module StartOrder {
  import opened Json

  /** `e["attributes"]["start"]` exists and is a string. */
  predicate HasStartKey(r: Record) {
    r.attributes.Attrs? && r.attributes.fields.start.Str?
  }

  /** The sort key (the empty string stands in where there is none). */
  function StartKey(r: Record): string {
    if HasStartKey(r) then r.attributes.fields.start.s else ""
  }

  /** Python's `a <= b` on strings. */
  predicate LexLe(a: string, b: string)
    decreases |a|
  {
    if a == [] then true
    else if b == [] then false
    else if a[0] != b[0] then a[0] < b[0]
    else LexLe(a[1..], b[1..])
  }

  lemma {:induction false} LexLeReflexive(a: string)
    ensures LexLe(a, a)
    decreases |a|
  {
    if a != [] {
      LexLeReflexive(a[1..]);
    }
  }

  lemma {:induction false} LexLeTotal(a: string, b: string)
    ensures LexLe(a, b) || LexLe(b, a)
    decreases |a|
  {
    if a != [] && b != [] && a[0] == b[0] {
      LexLeTotal(a[1..], b[1..]);
    }
  }

  lemma {:induction false} LexLeTransitive(a: string, b: string, c: string)
    requires LexLe(a, b) && LexLe(b, c)
    ensures LexLe(a, c)
    decreases |a|
  {
    if a != [] && b != [] && c != [] && a[0] == b[0] && b[0] == c[0] {
      LexLeTransitive(a[1..], b[1..], c[1..]);
    }
  }

  lemma {:induction false} LexLeAntisymmetric(a: string, b: string)
    requires LexLe(a, b) && LexLe(b, a)
    ensures a == b
    decreases |a|
  {
    if a != [] {
      LexLeAntisymmetric(a[1..], b[1..]);
      assert a == [a[0]] + a[1..] && b == [b[0]] + b[1..];
    }
  }

  /** Non-decreasing in the start string. */
  predicate Sorted(s: seq<Record>) {
    forall i, j :: 0 <= i < j < |s| ==> LexLe(StartKey(s[i]), StartKey(s[j]))
  }

  /** Insert `x` after every element whose start is at most its own,
      scanning from the back. */
  function Insert(t: seq<Record>, x: Record): seq<Record>
    decreases |t|
  {
    if t == [] || LexLe(StartKey(t[|t| - 1]), StartKey(x)) then t + [x]
    else Insert(t[..|t| - 1], x) + [t[|t| - 1]]
  }

  /** The sorted games list: a stable insertion sort on the start strings. */
  function SortedByStart(s: seq<Record>): seq<Record>
    decreases |s|
  {
    if s == [] then [] else Insert(SortedByStart(s[..|s| - 1]), s[|s| - 1])
  }

  /** The records of `s` whose start is `k`, in their order in `s`. */
  function WithStart(s: seq<Record>, k: string): seq<Record>
    decreases |s|
  {
    if s == [] then []
    else WithStart(s[..|s| - 1], k) + (if StartKey(s[|s| - 1]) == k then [s[|s| - 1]] else [])
  }

  lemma {:induction false} InsertPermutes(t: seq<Record>, x: Record)
    ensures multiset(Insert(t, x)) == multiset(t) + multiset{x}
    decreases |t|
  {
    if t != [] && !LexLe(StartKey(t[|t| - 1]), StartKey(x)) {
      var front := t[..|t| - 1];
      InsertPermutes(front, x);
      assert t == front + [t[|t| - 1]];
    }
  }

  lemma {:induction false} InsertSorted(t: seq<Record>, x: Record)
    requires Sorted(t)
    ensures Sorted(Insert(t, x))
    decreases |t|
  {
    if t == [] {
    } else if LexLe(StartKey(t[|t| - 1]), StartKey(x)) {
      var r := t + [x];
      forall i, j | 0 <= i < j < |r|
        ensures LexLe(StartKey(r[i]), StartKey(r[j]))
      {
        if j == |t| && i < |t| - 1 {
          LexLeTransitive(StartKey(t[i]), StartKey(t[|t| - 1]), StartKey(x));
        }
      }
    } else {
      var front := t[..|t| - 1];
      var y := t[|t| - 1];
      LexLeTotal(StartKey(y), StartKey(x));
      InsertSorted(front, x);
      InsertPermutes(front, x);
      var ins := Insert(front, x);
      var r := ins + [y];
      forall i, j | 0 <= i < j < |r|
        ensures LexLe(StartKey(r[i]), StartKey(r[j]))
      {
        if j == |ins| {
          assert r[i] in multiset(ins);
          if r[i] != x {
            assert r[i] in multiset(front);
            var p :| 0 <= p < |front| && front[p] == r[i];
            assert t[p] == r[i];
          }
        }
      }
    }
  }

  /** Inserting keeps the relative order of equal starts and puts `x` after
      every earlier record with the same start. */
  lemma {:induction false} InsertStable(t: seq<Record>, x: Record, k: string)
    ensures WithStart(Insert(t, x), k) == WithStart(t, k) + (if StartKey(x) == k then [x] else [])
    decreases |t|
  {
    if t == [] {
      assert Insert(t, x) == [x];
      assert [x][..0] == [];
    } else if LexLe(StartKey(t[|t| - 1]), StartKey(x)) {
      assert (t + [x])[..|t|] == t;
    } else {
      InsertStable(t[..|t| - 1], x, k);
      InsertStableShift(t, x, k);
    }
  }

  /** The inductive step of `InsertStable` when `x` moves past the last
      record, whose start is then strictly later and so differs. */
  lemma InsertStableShift(t: seq<Record>, x: Record, k: string)
    requires t != [] && !LexLe(StartKey(t[|t| - 1]), StartKey(x))
    requires WithStart(Insert(t[..|t| - 1], x), k)
             == WithStart(t[..|t| - 1], k) + (if StartKey(x) == k then [x] else [])
    ensures WithStart(Insert(t, x), k) == WithStart(t, k) + (if StartKey(x) == k then [x] else [])
  {
    var front, y := t[..|t| - 1], t[|t| - 1];
    LexLeReflexive(StartKey(x));
    var ins := Insert(front, x);
    assert (ins + [y])[..|ins|] == ins;
    var xs := if StartKey(x) == k then [x] else [];
    var ys := if StartKey(y) == k then [y] else [];
    assert xs == [] || ys == [];
    calc {
      WithStart(Insert(t, x), k);
      WithStart(ins, k) + ys;
      WithStart(front, k) + xs + ys;
      { assert xs + ys == ys + xs; }
      WithStart(front, k) + ys + xs;
      WithStart(t, k) + xs;
    }
  }

  /** The sorted list is non-decreasing in the start string. */
  lemma {:induction false} SortedByStartIsSorted(s: seq<Record>)
    ensures Sorted(SortedByStart(s))
    decreases |s|
  {
    if s != [] {
      SortedByStartIsSorted(s[..|s| - 1]);
      InsertSorted(SortedByStart(s[..|s| - 1]), s[|s| - 1]);
    }
  }

  /** The sorted list is a permutation of the input. */
  lemma {:induction false} SortedByStartPermutes(s: seq<Record>)
    ensures multiset(SortedByStart(s)) == multiset(s)
    decreases |s|
  {
    if s != [] {
      var front := s[..|s| - 1];
      SortedByStartPermutes(front);
      InsertPermutes(SortedByStart(front), s[|s| - 1]);
      assert s == front + [s[|s| - 1]];
    }
  }

  /** The sort is stable: records with equal starts keep their relative order. */
  lemma {:induction false} SortedByStartIsStable(s: seq<Record>, k: string)
    ensures WithStart(SortedByStart(s), k) == WithStart(s, k)
    decreases |s|
  {
    if s != [] {
      var front := s[..|s| - 1];
      SortedByStartIsStable(front, k);
      InsertStable(SortedByStart(front), s[|s| - 1], k);
    }
  }

  lemma {:induction false} WithStartMember(s: seq<Record>, k: string, i: nat)
    requires i < |s| && StartKey(s[i]) == k
    ensures s[i] in WithStart(s, k)
    decreases |s|
  {
    if i < |s| - 1 {
      WithStartMember(s[..|s| - 1], k, i);
    }
  }

  lemma {:induction false} WithStartKeys(s: seq<Record>, k: string, r: Record)
    requires r in WithStart(s, k)
    ensures r in s && StartKey(r) == k
    decreases |s|
  {
    if r !in WithStart(s[..|s| - 1], k) {
      assert r == s[|s| - 1];
    } else {
      WithStartKeys(s[..|s| - 1], k, r);
    }
  }

  /** In a sorted non-empty list, every start that occurs is at most the
      start of the last record. */
  lemma LastHasLargestStart(r: seq<Record>, k: string)
    requires Sorted(r) && r != [] && WithStart(r, k) != []
    ensures LexLe(k, StartKey(r[|r| - 1]))
  {
    var z := WithStart(r, k)[0];
    assert z in WithStart(r, k);
    WithStartKeys(r, k, z);
    var p :| 0 <= p < |r| && r[p] == z;
    if p == |r| - 1 {
      LexLeReflexive(k);
    }
  }

  /** Dropping the last record drops it from its own start's subsequence. */
  lemma WithStartDropLast(r: seq<Record>, k: string)
    requires r != []
    ensures StartKey(r[|r| - 1]) == k ==>
              WithStart(r, k) != [] &&
              WithStart(r, k)[|WithStart(r, k)| - 1] == r[|r| - 1] &&
              WithStart(r[..|r| - 1], k) == WithStart(r, k)[..|WithStart(r, k)| - 1]
    ensures StartKey(r[|r| - 1]) != k ==> WithStart(r[..|r| - 1], k) == WithStart(r, k)
  {
  }

  /** Two sorted lists with the same per-start subsequences end alike. */
  lemma SameLast(r1: seq<Record>, r2: seq<Record>)
    requires Sorted(r1) && Sorted(r2) && r1 != [] && r2 != []
    requires forall k :: WithStart(r1, k) == WithStart(r2, k)
    ensures r1[|r1| - 1] == r2[|r2| - 1]
  {
    var k1, k2 := StartKey(r1[|r1| - 1]), StartKey(r2[|r2| - 1]);
    WithStartDropLast(r1, k1);
    WithStartDropLast(r2, k2);
    assert WithStart(r1, k1) == WithStart(r2, k1);
    assert WithStart(r1, k2) == WithStart(r2, k2);
    LastHasLargestStart(r1, k2);
    LastHasLargestStart(r2, k1);
    LexLeAntisymmetric(k1, k2);
    WithStartDropLast(r2, k1);
  }

  /** A sorted list is determined by its per-start subsequences: so any
      stable sort of the games list, Python's included, gives the list
      `SortedByStart` describes. */
  lemma {:induction false} StableSortIsUnique(r1: seq<Record>, r2: seq<Record>)
    requires Sorted(r1) && Sorted(r2)
    requires forall k :: WithStart(r1, k) == WithStart(r2, k)
    ensures r1 == r2
    decreases |r1| + |r2|
  {
    if r1 == [] && r2 == [] {
    } else if r1 == [] || r2 == [] {
      var s := if r1 == [] then r2 else r1;
      WithStartDropLast(s, StartKey(s[|s| - 1]));
      assert false;
    } else {
      SameLast(r1, r2);
      var f1, f2 := r1[..|r1| - 1], r2[..|r2| - 1];
      forall k
        ensures WithStart(f1, k) == WithStart(f2, k)
      {
        assert WithStart(r1, k) == WithStart(r2, k);
        WithStartDropLast(r1, k);
        WithStartDropLast(r2, k);
      }
      assert Sorted(f1) && Sorted(f2);
      StableSortIsUnique(f1, f2);
      assert r1 == f1 + [r1[|r1| - 1]] && r2 == f2 + [r2[|r2| - 1]];
    }
  }

  /** `Insert` places `x` right after the last record whose start is not
      later than its own (at the front when there is none). */
  lemma {:induction false} InsertAtPosition(t: seq<Record>, x: Record, j: nat)
    requires j <= |t| && (j == 0 || LexLe(StartKey(t[j - 1]), StartKey(x)))
    requires forall m :: j <= m < |t| ==> !LexLe(StartKey(t[m]), StartKey(x))
    ensures Insert(t, x) == t[..j] + [x] + t[j..]
    decreases |t|
  {
    if j < |t| {
      var front := t[..|t| - 1];
      InsertAtPosition(front, x, j);
      assert front[..j] == t[..j];
      assert front[j..] + [t[|t| - 1]] == t[j..];
    }
  }

  /** The array contents once the shifted records and `x` are in place. */
  lemma ShiftedShape(s: seq<Record>, t: seq<Record>, x: Record, j: nat)
    requires j <= |t| && |s| == |t| + 1 && s[j] == x
    requires forall m :: 0 <= m < j ==> s[m] == t[m]
    requires forall m :: j < m <= |t| ==> s[m] == t[m - 1]
    ensures s == t[..j] + [x] + t[j..]
  {
  }

  /** The shifting loop of one insertion step: move every record of the
      prefix `a[..i]` whose start is later than `key`, scanning from the back,
      one place to the right; `j` is the gap left behind. */
  method ShiftLater(a: array<Record>, i: nat, key: string) returns (j: nat)
    requires i < a.Length
    modifies a
    ensures j <= i
    ensures j == 0 || LexLe(StartKey(old(a[j - 1])), key)
    ensures forall m :: 0 <= m < j ==> a[m] == old(a[m])
    ensures forall m :: j < m <= i ==> a[m] == old(a[m - 1])
    ensures forall m :: i < m < a.Length ==> a[m] == old(a[m])
    ensures forall m :: j <= m < i ==> !LexLe(StartKey(old(a[m])), key)
  {
    j := i;
    while j > 0 && !LexLe(StartKey(a[j - 1]), key)
      invariant 0 <= j <= i
      invariant forall m :: 0 <= m < j ==> a[m] == old(a[m])
      invariant forall m :: j < m <= i ==> a[m] == old(a[m - 1])
      invariant forall m :: i < m < a.Length ==> a[m] == old(a[m])
      invariant forall m :: j <= m < i ==> !LexLe(StartKey(old(a[m])), key)
    {
      a[j] := a[j - 1];
      j := j - 1;
    }
  }

  /** One step of the in-place insertion sort: insert `a[i]` into the sorted
      prefix `a[..i]`, shifting later starts one place right. */
  method InsertInPlace(a: array<Record>, i: nat)
    requires i < a.Length
    modifies a
    ensures a[..i + 1] == Insert(old(a[..i]), old(a[i]))
    ensures a[i + 1..] == old(a[i + 1..])
  {
    var x := a[i];
    ghost var t := a[..i];
    var j := ShiftLater(a, i, StartKey(x));
    a[j] := x;
    InsertAtPosition(t, x, j);
    ShiftedShape(a[..i + 1], t, x, j);
  }

  /** Whether every game has a string start, as Python's key pass demands. */
  method AllHaveStartKeys(a: array<Record>) returns (ok: bool)
    ensures ok <==> forall i :: 0 <= i < a.Length ==> HasStartKey(a[i])
  {
    for k := 0 to a.Length
      invariant forall i :: 0 <= i < k ==> HasStartKey(a[i])
    {
      if !HasStartKey(a[k]) {
        return false;
      }
    }
    return true;
  }

  /** The in-place insertion sort: each pass inserts the next game into the
      sorted prefix. */
  method InsertionSort(a: array<Record>)
    modifies a
    ensures a[..] == SortedByStart(old(a[..]))
  {
    ghost var input := a[..];
    for i := 0 to a.Length
      invariant a[..i] == SortedByStart(input[..i])
      invariant a[i..] == input[i..]
    {
      assert a[i] == input[i];
      InsertInPlace(a, i);
      assert input[..i + 1][..i] == input[..i];
    }
    assert input[..a.Length] == input;
  }

  /** Sorts the games list in place, or reports that Python's sort raises.
      The model decides failure before moving anything, so a failed sort
      leaves the array as it was; that matches Python when computing a key
      raises, but not when a comparison does. */
  method SortByStart(a: array<Record>) returns (ok: bool)
    modifies a
    ensures ok <==> forall i :: 0 <= i < a.Length ==> HasStartKey(old(a[i]))
    ensures ok ==> a[..] == SortedByStart(old(a[..]))
    ensures !ok ==> a[..] == old(a[..])
  {
    ok := AllHaveStartKeys(a);
    if ok {
      InsertionSort(a);
    }
  }

  /** The exception computing one game's key raises:
      `e["attributes"]["start"]`. */
  function KeyFailure(r: Record): Option<Error> {
    match r.attributes
    case NoAttrs => Some(KeyError("attributes"))
    case NullAttrs => Some(TypeError("'NoneType' object is not subscriptable"))
    case Attrs(f) => if f.start.Missing? then Some(KeyError("start")) else None
  }

  function KeyFailures(games: seq<Record>): seq<Option<Error>> {
    seq(|games|, i requires 0 <= i < |games| => KeyFailure(games[i]))
  }

  /** What `games.sort(key=...)` does: Python computes every key in order
      first, so the first game whose key cannot be read raises; a key that
      is not a string then fails the comparisons; otherwise the stable sort. */
  function SortOutcome(games: seq<Record>): Result<seq<Record>> {
    var keyErr := FirstError(KeyFailures(games));
    if keyErr.Some? then Err(keyErr.value)
    else if exists i :: 0 <= i < |games| && !HasStartKey(games[i]) then
      Err(TypeError("'<' not supported between the start values"))
    else Ok(SortedByStart(games))
  }

  /** The sort succeeds exactly when every game has a string start; a
      failure is a KeyError when some game lacks the "start" key (or its
      attributes), and the games are then left as they were. */
  lemma SortOutcomeOk(games: seq<Record>)
    ensures SortOutcome(games).Ok? <==> forall i :: 0 <= i < |games| ==> HasStartKey(games[i])
    ensures SortOutcome(games).Ok? ==> SortOutcome(games).value == SortedByStart(games)
    ensures (exists i :: 0 <= i < |games| && games[i].attributes.Attrs? && games[i].attributes.fields.start.Missing?) &&
            (forall i :: 0 <= i < |games| ==> games[i].attributes.Attrs?) ==>
              SortOutcome(games) == Err(KeyError("start"))
  {
    var errs := KeyFailures(games);
    FirstErrorIsEarliest(errs);
    if exists i :: 0 <= i < |games| && games[i].attributes.Attrs? && games[i].attributes.fields.start.Missing? {
      var i :| 0 <= i < |games| && games[i].attributes.Attrs? && games[i].attributes.fields.start.Missing?;
      assert errs[i].Some?;
    }
  }
}
